/**
 Where the two ClientHello oracles agree on one byte string.
 */
module ClientHelloAgreement {
  import opened Options
  import opened Wire
  import opened ClientHello
  import Locator = KeyShareLocator
  import Shapes = ClientHelloShape
  import Parsers = ClientHelloParsers

  // Index of the last key_share extension, -1 if there is none.
  function LastKeyShare(es: seq<Entry>): (k: int)
    ensures -1 <= k < |es|
    ensures k >= 0 ==> es[k].tag == KEY_SHARE
    ensures forall i :: k < i < |es| ==> es[i].tag != KEY_SHARE
  {
    if es == [] then -1
    else if es[|es| - 1].tag == KEY_SHARE then |es| - 1
    else LastKeyShare(es[..|es| - 1])
  }

  lemma AbsorbedShares(p: Shapes.Payloads, e: Entry)
    requires Shapes.Absorb(p, e.tag, e.data).Some?
    ensures var p' := Shapes.Absorb(p, e.tag, e.data).value;
            if e.tag == KEY_SHARE then SharesOf(e.data).Some? && p'.keyShares == Shapes.Sizes(SharesOf(e.data).value)
            else p'.keyShares == p.keyShares
  {
    hide SharesOf, Shapes.Whole, Shapes.ReadNames, Shapes.ReadU16List, Shapes.ReadShortU16List,
         Wire.ReadVec8, Wire.ReadU16;
  }

  /** The shape lists the key shares of the last key_share extension; every key_share extension
      of an accepted hello holds shares that tile it. */
  lemma {:induction false} ShapeListsLastShares(es: seq<Entry>)
    requires Shapes.AbsorbAll(Shapes.NoPayloads, es).Some?
    ensures var k := LastKeyShare(es);
            k >= 0 ==> SharesOf(es[k].data).Some? && Shapes.AbsorbAll(Shapes.NoPayloads, es).value.keyShares
                                                     == Shapes.Sizes(SharesOf(es[k].data).value)
    ensures forall i :: 0 <= i < |es| && es[i].tag == KEY_SHARE ==> SharesOf(es[i].data).Some?
  {
    hide Shapes.Absorb, Shapes.AbsorbAll, SharesOf;
    if es != [] {
      var last := |es| - 1;
      assert es == es[..last] + [es[last]];
      Parsers.AbsorbNext(Shapes.NoPayloads, es[..last], es[last]);
      ShapeListsLastShares(es[..last]);
      AbsorbedShares(Shapes.AbsorbAll(Shapes.NoPayloads, es[..last]).value, es[last]);
      assert forall i :: 0 <= i < last ==> es[..last][i] == es[i];
    }
  }

  /** On a byte string both oracles accept, they see the same hello: the shape's extension list is
      that of the hello in which the key was located. They list the same shares exactly when the
      last key_share extension repeats the groups and lengths of the first. */
  lemma OraclesAgree(raw: Bytes, key: Bytes, shape: Shapes.Shape, r: Locator.Located)
    returns (h: Hello, i: nat, shares: seq<Entry>, k: nat)
    requires Shapes.ParseShape(raw) == Some(shape) && Locator.Locate(raw, key) == Some(r)
    ensures Parse(raw) == Some(h) && Fits(h) && Locator.FoundIn(h, key, r, i, shares, k)
    ensures shape.extensions == Shapes.Sizes(h.extensions) && shape.order == Shapes.Order(h.extensions)
    ensures i <= LastKeyShare(h.extensions) && SharesOf(h.extensions[LastKeyShare(h.extensions)].data).Some?
    ensures shape.payloads.keyShares == Shapes.Sizes(shares) <==>
            Shapes.Sizes(SharesOf(h.extensions[LastKeyShare(h.extensions)].data).value) == Shapes.Sizes(shares)
  {
    hide Parse, Encode, Fits, Shapes.Sizes, Shapes.Order, SharesOf, Shapes.AbsorbAll;
    h, i, shares, k := Locator.LocatedKeyInPlace(raw, key, r);
    ShapeListsLastShares(h.extensions);
  }

  // ---- A hello on which the two differ

  // The share of the key, and key_share extensions that offer it once and twice.
  function Share(key: Bytes): Entry
    requires |key| == 32
  {
    Entry(Locator.X25519, key)
  }

  lemma TwiceFits(key: Bytes)
    requires |key| == 32
    ensures var s := Share(key);
            && EntriesFit([s]) && |EncodeEntries([s])| == 36
            && EntriesFit([s, s]) && |EncodeEntries([s, s])| == 72
  {
    var s := Share(key);
    assert EncodeEntries([s]) == EncodeEntry(s) + EncodeEntries([]) by { assert [s][1..] == []; }
    EncodeEntriesConcat([s], [s]);
    assert [s] + [s] == [s, s];
  }

  function Repeated(key: Bytes): (h: Hello)
    requires |key| == 32
    ensures |h.extensions| == 2
  {
    TwiceFits(key);
    var s := Share(key);
    Hello(0x0303, seq(32, _ => 0), [], [], [0],
          [Entry(KEY_SHARE, Vec16(EncodeEntries([s]))), Entry(KEY_SHARE, Vec16(EncodeEntries([s, s])))])
  }

  lemma RepeatedFits(key: Bytes)
    requires |key| == 32
    ensures Fits(Repeated(key))
  {
    TwiceFits(key);
    var es := Repeated(key).extensions;
    assert |es[0].data| == 38 && |es[1].data| == 74;
    EncodeEntriesConcat([es[0]], [es[1]]);
    assert es == [es[0]] + [es[1]];
    assert [es[0]][1..] == [] && [es[1]][1..] == [];
  }

  lemma RepeatedOffers(key: Bytes)
    requires |key| == 32
    ensures Locator.Offers(Repeated(key), key) && Locator.FirstKeyShare(Repeated(key).extensions) == 0
    ensures var es := Repeated(key).extensions;
            SharesOf(es[0].data) == Some([Share(key)]) && SharesOf(es[1].data) == Some([Share(key), Share(key)])
  {
    TwiceFits(key);
    var s, es := Share(key), Repeated(key).extensions;
    SharesExact(es[0].data, [s]);
    SharesExact(es[1].data, [s, s]);
    assert Locator.Carries(s, key) && Locator.Sized(s);
  }

  lemma RepeatedEncodes(key: Bytes)
    requires |key| == 32
    ensures Shapes.U16s([]) && Repeated(key).ciphers == Shapes.EncodeU16s([])
    ensures Shapes.Encodes(Repeated(key).extensions,
                           [Shapes.KeyShares([Share(key)]), Shapes.KeyShares([Share(key), Share(key)])])
    ensures Shapes.RecordAll(Shapes.NoPayloads,
                             [Shapes.KeyShares([Share(key)]), Shapes.KeyShares([Share(key), Share(key)])]).keyShares
         == Shapes.Sizes([Share(key), Share(key)])
  {
    TwiceFits(key);
    hide EncodeEntries, Vec16, Shapes.Sizes;
    var s := Share(key);
    var ps := [Shapes.KeyShares([s]), Shapes.KeyShares([s, s])];
    var one := Shapes.Record(Shapes.NoPayloads, ps[0]);
    assert ps[1..] == [ps[1]] && [ps[1]][1..] == [];
    assert Shapes.RecordAll(Shapes.NoPayloads, ps) == Shapes.RecordAll(one, [ps[1]]);
    assert Shapes.RecordAll(one, [ps[1]]) == Shapes.RecordAll(Shapes.Record(one, ps[1]), []);
  }

  lemma RepeatedShape(key: Bytes) returns (shape: Shapes.Shape)
    requires |key| == 32
    ensures Fits(Repeated(key)) && Shapes.ParseShape(Encode(Repeated(key))) == Some(shape)
    ensures shape.payloads.keyShares == Shapes.Sizes([Share(key), Share(key)])
  {
    RepeatedFits(key);
    RepeatedEncodes(key);
    hide Encode, Fits, Repeated, Shapes.ParseShape, Shapes.Sizes, Shapes.Order,
         Shapes.RecordAll, Shapes.Encodes, Shapes.EncodeU16s;
    var h, s := Repeated(key), Share(key);
    var ps := [Shapes.KeyShares([s]), Shapes.KeyShares([s, s])];
    Shapes.ShapeRoundTrip(h, Encode(h), [], ps);
    shape := Shapes.ParseShape(Encode(h)).value;
  }

  /** For every key there is a ClientHello both oracles accept on which they differ: the locator
      searches one share where the shape lists two. */
  lemma OraclesDiffer(key: Bytes) returns (raw: Bytes, shape: Shapes.Shape, r: Locator.Located)
    requires |key| == 32
    ensures Shapes.ParseShape(raw) == Some(shape) && Locator.Locate(raw, key) == Some(r)
    ensures Parse(raw) == Some(Repeated(key)) && Fits(Repeated(key))
    ensures forall i, shares, k :: Locator.FoundIn(Repeated(key), key, r, i, shares, k) ==>
              shape.payloads.keyShares != Shapes.Sizes(shares)
  {
    RepeatedOffers(key);
    shape := RepeatedShape(key);
    hide Encode, Fits, Repeated, Parse, Locator.Locate, Locator.Offers, SharesOf, Shapes.ParseShape;
    var h := Repeated(key);
    raw := Encode(h);
    EncodingParses(h);
    Locator.PresentKeyIsLocated(h, key);
    r := Locator.Locate(raw, key).value;
    assert |Shapes.Sizes([Share(key), Share(key)])| == 2 && |Shapes.Sizes([Share(key)])| == 1;
  }
}
