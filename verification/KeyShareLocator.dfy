/**
 Where a ClientHello carries a given X25519 public key: what the fixture
 oracle's locator finds, defined on the decoded hello.
 */
module KeyShareLocator {
  import opened Options
  import opened Wire
  import opened ClientHello

  const X25519 := 0x001d
  const X25519_MLKEM768 := 0x11ec
  const X25519_LENGTH := 32
  const HYBRID_LENGTH := 1216
  const MLKEM768_LENGTH := 1184

  datatype Group = Plain | Hybrid

  /** A located key: the group of its share and its absolute offset in the raw hello. */
  datatype Located = Located(group: Group, offset: nat)

  // A share of a known group has that group's length.
  predicate Sized(share: Entry) {
    && (share.tag == X25519 ==> |share.data| == X25519_LENGTH)
    && (share.tag == X25519_MLKEM768 ==> |share.data| == HYBRID_LENGTH)
  }

  predicate Carries(share: Entry, key: Bytes) {
    || (share.tag == X25519 && share.data == key)
    || (share.tag == X25519_MLKEM768 && |share.data| == HYBRID_LENGTH && share.data[MLKEM768_LENGTH..] == key)
  }

  // The key inside a share whose key_exchange starts at `at`.
  function KeyAt(share: Entry, at: nat): Located {
    if share.tag == X25519 then Located(Plain, at) else Located(Hybrid, at + MLKEM768_LENGTH)
  }

  // Index of the first share carrying the key, |shares| if none does.
  function FirstCarrier(shares: seq<Entry>, key: Bytes): (k: nat)
    ensures k <= |shares| && forall i :: 0 <= i < k ==> !Carries(shares[i], key)
    ensures k < |shares| ==> Carries(shares[k], key)
  {
    if shares == [] || Carries(shares[0], key) then 0 else 1 + FirstCarrier(shares[1..], key)
  }

  lemma {:induction false} FirstCarrierAppend(shares: seq<Entry>, share: Entry, key: Bytes)
    ensures var k := FirstCarrier(shares, key);
            FirstCarrier(shares + [share], key)
            == if k < |shares| then k else if Carries(share, key) then |shares| else |shares| + 1
  {
    if shares == [] {
      assert (shares + [share])[1..] == [];
    } else if !Carries(shares[0], key) {
      FirstCarrierAppend(shares[1..], share, key);
      assert (shares + [share])[1..] == shares[1..] + [share];
    }
  }

  // Absolute offset of the key_exchange of share k in an extension whose data starts at `base`.
  function ExchangeOffset(shares: seq<Entry>, base: nat, k: nat): nat
    requires EntriesFit(shares) && k <= |shares|
  {
    base + 2 + |EncodeEntries(shares[..k])| + 4
  }

  /** The key in one key_share extension: all shares well sized, and the first that carries it. */
  function InShares(data: Bytes, base: nat, key: Bytes): Option<Located> {
    match SharesOf(data)
    case None => None
    case Some(shares) =>
      SharesFit(data);
      var k := FirstCarrier(shares, key);
      if (exists i :: 0 <= i < |shares| && !Sized(shares[i])) || k == |shares| then None
      else Some(KeyAt(shares[k], ExchangeOffset(shares, base, k)))
  }

  // Index of the first key_share extension, |es| if there is none.
  function FirstKeyShare(es: seq<Entry>): (k: nat)
    ensures k <= |es| && forall i :: 0 <= i < k ==> es[i].tag != KEY_SHARE
    ensures k < |es| ==> es[k].tag == KEY_SHARE
  {
    if es == [] || es[0].tag == KEY_SHARE then 0 else 1 + FirstKeyShare(es[1..])
  }

  lemma {:induction false} FirstKeyShareAppend(es: seq<Entry>, e: Entry)
    ensures var k := FirstKeyShare(es);
            FirstKeyShare(es + [e]) == if k < |es| then k else if e.tag == KEY_SHARE then |es| else |es| + 1
  {
    if es == [] {
      assert (es + [e])[1..] == [];
    } else if es[0].tag != KEY_SHARE {
      FirstKeyShareAppend(es[1..], e);
      assert (es + [e])[1..] == es[1..] + [e];
    }
  }

  /** The whole locator: every key_share extension must carry the key; the first one counts. */
  function InHello(h: Hello, key: Bytes): Option<Located>
    requires Fits(h)
  {
    var k := FirstKeyShare(h.extensions);
    if k == |h.extensions| then None
    else if exists i :: 0 <= i < |h.extensions| && h.extensions[i].tag == KEY_SHARE
                     && InShares(h.extensions[i].data, DataOffset(h, i), key).None? then None
    else InShares(h.extensions[k].data, DataOffset(h, k), key)
  }

  function Locate(raw: Bytes, key: Bytes): Option<Located> {
    match Parse(raw)
    case None => None
    case Some(h) => ParseInvertsEncode(raw, h); InHello(h, key)
  }

  lemma ShareInPlace(data: Bytes, shares: seq<Entry>, k: nat)
    requires SharesOf(data) == Some(shares) && k < |shares|
    ensures EntriesFit(shares)
    ensures var at := ExchangeOffset(shares, 0, k);
            at + |shares[k].data| <= |data| && data[at..at + |shares[k].data|] == shares[k].data
  {
    SharesFit(data);
    EntryInPlace(shares, k);
    var block := EncodeEntries(shares);
    assert data[2..] == block;
    var at, n := |EncodeEntries(shares[..k])| + 4, |shares[k].data|;
    assert data[2..][at..at + n] == data[2 + at..2 + at + n];
  }

  // A located key is in place relative to its extension's data.
  lemma KeyInShares(data: Bytes, base: nat, key: Bytes)
    requires InShares(data, base, key).Some?
    ensures var r := InShares(data, base, key).value;
            && base <= r.offset && r.offset - base + X25519_LENGTH <= |data|
            && data[r.offset - base..r.offset - base + X25519_LENGTH] == key
  {
    var shares := SharesOf(data).value;
    SharesFit(data);
    var k := FirstCarrier(shares, key);
    ShareInPlace(data, shares, k);
    var at, share := ExchangeOffset(shares, 0, k), shares[k];
    assert Sized(share);
    if share.tag != X25519 {
      assert data[at..at + HYBRID_LENGTH][MLKEM768_LENGTH..] == data[at + MLKEM768_LENGTH..at + HYBRID_LENGTH];
    }
  }

  // What a successful search has found, in terms of the hello alone.
  ghost predicate FoundIn(h: Hello, key: Bytes, r: Located, i: nat, shares: seq<Entry>, k: nat)
    requires Fits(h)
  {
    && i < |h.extensions| && h.extensions[i].tag == KEY_SHARE
    && (forall j :: 0 <= j < i ==> h.extensions[j].tag != KEY_SHARE)
    && SharesOf(h.extensions[i].data) == Some(shares) && k < |shares| && Carries(shares[k], key)
    && (forall j :: 0 <= j < k ==> !Carries(shares[j], key))
    && shares[k].tag == (if r.group == Plain then X25519 else X25519_MLKEM768)
    && EntriesFit(shares) && r == KeyAt(shares[k], ExchangeOffset(shares, DataOffset(h, i), k))
  }

  lemma FoundInHello(h: Hello, key: Bytes, r: Located) returns (i: nat, shares: seq<Entry>, k: nat)
    requires Fits(h) && InHello(h, key) == Some(r)
    ensures FoundIn(h, key, r, i, shares, k)
    ensures InShares(h.extensions[i].data, DataOffset(h, i), key) == Some(r)
  {
    i := FirstKeyShare(h.extensions);
    var data := h.extensions[i].data;
    shares := SharesOf(data).value;
    SharesFit(data);
    k := FirstCarrier(shares, key);
  }

  lemma SubSlice(s: Bytes, base: nat, n: nat, at: nat, m: nat)
    requires base + n <= |s| && at + m <= n
    ensures s[base..base + n][at..at + m] == s[base + at..base + at + m]
  {
    var part := s[base..base + n];
    var inner := part[at..at + m];
    assert forall j :: 0 <= j < m ==> inner[j] == part[at + j] == s[base + at..base + at + m][j];
  }

  lemma KeyInRaw(raw: Bytes, data: Bytes, base: nat, key: Bytes, r: Located)
    requires base + |data| <= |raw| && raw[base..base + |data|] == data
    requires InShares(data, base, key) == Some(r)
    ensures r.offset + X25519_LENGTH <= |raw| && raw[r.offset..r.offset + X25519_LENGTH] == key
  {
    KeyInShares(data, base, key);
    SubSlice(raw, base, |data|, r.offset - base, X25519_LENGTH);
  }

  lemma FoundKeyInPlace(h: Hello, key: Bytes, r: Located) returns (i: nat, shares: seq<Entry>, k: nat)
    requires Fits(h) && InHello(h, key) == Some(r)
    ensures FoundIn(h, key, r, i, shares, k)
    ensures r.offset + X25519_LENGTH <= |Encode(h)| && Encode(h)[r.offset..r.offset + X25519_LENGTH] == key
  {
    hide Encode, InHello, InShares;
    i, shares, k := FoundInHello(h, key, r);
    ExtensionInPlace(h, i);
    KeyInRaw(Encode(h), h.extensions[i].data, DataOffset(h, i), key, r);
  }

  /** A key_share extension of well-sized shares, one of them carrying the key. */
  predicate CarriesKey(data: Bytes, key: Bytes) {
    && SharesOf(data).Some?
    && var shares := SharesOf(data).value;
       (forall i :: 0 <= i < |shares| ==> Sized(shares[i])) && FirstCarrier(shares, key) < |shares|
  }

  /** The hello has a key_share extension, and every one it has carries the key. */
  predicate Offers(h: Hello, key: Bytes) {
    && FirstKeyShare(h.extensions) < |h.extensions|
    && forall i :: 0 <= i < |h.extensions| && h.extensions[i].tag == KEY_SHARE ==> CarriesKey(h.extensions[i].data, key)
  }

  lemma InHelloIffOffered(h: Hello, key: Bytes)
    requires Fits(h)
    ensures InHello(h, key).Some? <==> Offers(h, key)
  {
    forall i | 0 <= i < |h.extensions|
      ensures InShares(h.extensions[i].data, DataOffset(h, i), key).Some? <==> CarriesKey(h.extensions[i].data, key)
    {
    }
    hide InShares, CarriesKey;
  }

  /** When the locator succeeds, the offset it returns holds exactly the requested 32-byte key
      inside the raw hello: in the first key_share extension, in its first share carrying the key,
      which is of the returned group. Every further key_share extension carries the key too. */
  lemma LocatedKeyInPlace(raw: Bytes, key: Bytes, r: Located) returns (h: Hello, i: nat, shares: seq<Entry>, k: nat)
    requires Locate(raw, key) == Some(r)
    ensures Parse(raw) == Some(h) && Fits(h) && FoundIn(h, key, r, i, shares, k) && Offers(h, key)
    ensures r.offset + X25519_LENGTH <= |raw| && raw[r.offset..r.offset + X25519_LENGTH] == key
  {
    h := Parse(raw).value;
    ParsedIsEncoding(raw, h);
    hide InHello, Offers;
    InHelloIffOffered(h, key);
    i, shares, k := FoundKeyInPlace(h, key, r);
  }

  /** The locator finds a key exactly when the hello offers it, at the computed offset of the first
      share carrying it in the first key_share extension. */
  lemma PresentKeyIsLocated(h: Hello, key: Bytes)
    requires Fits(h)
    ensures Locate(Encode(h), key).Some? <==> Offers(h, key)
    ensures Offers(h, key) ==>
              var i := FirstKeyShare(h.extensions);
              var shares := SharesOf(h.extensions[i].data).value;
              var k := FirstCarrier(shares, key);
              && EntriesFit(shares)
              && Locate(Encode(h), key) == Some(KeyAt(shares[k], ExchangeOffset(shares, DataOffset(h, i), k)))
  {
    EncodingParses(h);
    InHelloIffOffered(h, key);
    if Offers(h, key) {
      SharesFit(h.extensions[FirstKeyShare(h.extensions)].data);
    }
  }
}
