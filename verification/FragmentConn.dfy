/**
 The oracle's corrupting connection: it passes a byte stream on in fragments
 of at most 17 bytes, toggling one bit of the byte at an absolute offset, or
 cutting the stream off at one.
 */
module FragmentConn {
  import opened Options
  import opened Wire

  const FRAGMENT := 17
  const READ_LIMIT := 13

  datatype Error = Underlying | ShortWrite | UnexpectedEOF

  /** What the underlying connection answers to one fragment. */
  datatype Response = Response(written: nat, failed: bool)

  function Min(a: int, b: int): int {
    if a < b then a else b
  }

  // byte ^ 1
  function Toggled(b: byte): (t: byte)
    ensures t != b && (t / 2 == b / 2)
  {
    if b % 2 == 0 then b + 1 else b - 1
  }

  /** The stream with the byte at offset k toggled, if it has one. */
  function ToggleAt(s: Bytes, k: int): (t: Bytes)
    ensures |t| == |s|
  {
    if 0 <= k < |s| then s[k := Toggled(s[k])] else s
  }

  /** The fragment loop: how many bytes of the buffer the underlying connection takes, and how it
      ends. A connection that has no more answers fails. */
  function Fragments(buffer: Bytes, responses: seq<Response>): (r: (nat, Option<Error>))
    ensures r.0 <= |buffer| && (r.1.None? ==> r.0 == |buffer|)
    decreases |buffer|
  {
    if buffer == [] then (0, None)
    else if responses == [] then (0, Some(Underlying))
    else
      var written := Min(responses[0].written, Min(FRAGMENT, |buffer|));
      if responses[0].failed then (written, Some(Underlying))
      else if written == 0 then (0, Some(ShortWrite))
      else
        var (n, error) := Fragments(buffer[written..], responses[1..]);
        (written + n, error)
  }

  /** The connection: the configured offset, the bytes put on the wire, and whether it was cut. */
  datatype Conn = Conn(flip: int, wire: Bytes, cut: bool)

  function Cap(c: Conn): int {
    -c.flip - 2
  }

  predicate Truncates(c: Conn, b: Bytes) {
    c.flip < -1 && |c.wire| + |b| > Cap(c)
  }

  // The buffer a write actually sends.
  function Outgoing(c: Conn, b: Bytes): Bytes {
    if Truncates(c, b) then (if Cap(c) <= |c.wire| then [] else b[..Cap(c) - |c.wire|])
    else ToggleAt(b, c.flip - |c.wire|)
  }

  function Write(c: Conn, b: Bytes, responses: seq<Response>): (r: (Conn, nat, Option<Error>))
    ensures r.1 <= |b|
  {
    var outgoing := Outgoing(c, b);
    var (n, error) := Fragments(outgoing, if c.cut then [] else responses);
    (Conn(c.flip, c.wire + outgoing[..n], c.cut || Truncates(c, b)), n,
     if error.Some? then error else if Truncates(c, b) then Some(UnexpectedEOF) else None)
  }

  // ---- Whole streams of writes

  datatype Call = Call(b: Bytes, responses: seq<Response>)

  /** A connection and the stream it has acknowledged: the accepted prefix of every write. */
  datatype World = World(c: Conn, acknowledged: Bytes)

  function Run(flip: int, calls: seq<Call>): World {
    if calls == [] then World(Conn(flip, [], false), []) else
    var last := |calls| - 1;
    var w := Run(flip, calls[..last]);
    var (c, n, _) := Write(w.c, calls[last].b, calls[last].responses);
    World(c, w.acknowledged + calls[last].b[..n])
  }

  lemma ToggleSplits(a: Bytes, b: Bytes, k: int)
    ensures ToggleAt(a + b, k) == ToggleAt(a, k) + ToggleAt(b, k - |a|)
  {
  }

  lemma TogglePrefix(s: Bytes, k: int, n: nat)
    requires n <= |s|
    ensures ToggleAt(s, k)[..n] == ToggleAt(s[..n], k)
  {
  }

  // One write adds its acknowledged bytes, with the selected one toggled.
  lemma WriteCorrupts(c: Conn, acknowledged: Bytes, b: Bytes, responses: seq<Response>)
    requires c.wire == ToggleAt(acknowledged, c.flip) && (c.flip < -1 ==> |c.wire| <= Cap(c))
    ensures var (c', n, error) := Write(c, b, responses);
            && c'.wire == ToggleAt(acknowledged + b[..n], c.flip)
            && (c.flip < -1 ==> |c'.wire| <= Cap(c))
  {
    hide Fragments;
    var (c', n, error) := Write(c, b, responses);
    ToggleSplits(acknowledged, b[..n], c.flip);
    if !Truncates(c, b) {
      TogglePrefix(b, c.flip - |c.wire|, n);
    }
  }

  lemma {:induction false} RunCorrupts(flip: int, calls: seq<Call>)
    ensures var w := Run(flip, calls);
            && w.c.flip == flip && w.c.wire == ToggleAt(w.acknowledged, flip)
            && (flip < -1 ==> |w.c.wire| <= Cap(w.c))
  {
    hide Write, ToggleAt;
    if calls == [] {
      ToggleEmpty(flip);
    } else {
      var last := |calls| - 1;
      RunCorrupts(flip, calls[..last]);
      var w := Run(flip, calls[..last]);
      WriteCorrupts(w.c, w.acknowledged, calls[last].b, calls[last].responses);
      WriteKeepsFlip(w.c, calls[last].b, calls[last].responses);
    }
  }

  lemma ToggleEmpty(k: int)
    ensures ToggleAt([], k) == []
  {
  }

  lemma WriteKeepsFlip(c: Conn, b: Bytes, responses: seq<Response>)
    ensures Write(c, b, responses).0.flip == c.flip
    ensures c.wire <= Write(c, b, responses).0.wire
  {
  }

  // The caller writes a stream and resumes each time at the count reported.
  ghost predicate Resumes(stream: Bytes, flip: int, calls: seq<Call>) {
    forall i :: 0 <= i < |calls| ==>
      var from := |Run(flip, calls[..i]).acknowledged|;
      from + |calls[i].b| <= |stream| && calls[i].b == stream[from..from + |calls[i].b|]
  }

  lemma ResumesBefore(stream: Bytes, flip: int, calls: seq<Call>)
    requires Resumes(stream, flip, calls) && calls != []
    ensures Resumes(stream, flip, calls[..|calls| - 1])
  {
    hide Run;
    var earlier := calls[..|calls| - 1];
    forall i | 0 <= i < |earlier|
      ensures var from := |Run(flip, earlier[..i]).acknowledged|;
              from + |earlier[i].b| <= |stream| && earlier[i].b == stream[from..from + |earlier[i].b|]
    {
      assert earlier[..i] == calls[..i] && earlier[i] == calls[i];
    }
  }

  lemma PrefixGrows(stream: Bytes, done: Bytes, b: Bytes, n: nat)
    requires done <= stream && |done| + |b| <= |stream| && b == stream[|done|..|done| + |b|] && n <= |b|
    ensures done + b[..n] <= stream
  {
  }

  lemma {:induction false} AcknowledgedIsPrefix(stream: Bytes, flip: int, calls: seq<Call>)
    requires Resumes(stream, flip, calls)
    ensures Run(flip, calls).acknowledged <= stream
  {
    hide Write;
    if calls != [] {
      var last := |calls| - 1;
      ResumesBefore(stream, flip, calls);
      AcknowledgedIsPrefix(stream, flip, calls[..last]);
      var w := Run(flip, calls[..last]);
      PrefixGrows(stream, w.acknowledged, calls[last].b, Write(w.c, calls[last].b, calls[last].responses).1);
    }
  }

  /** For every split of a stream into writes and every pattern of partial underlying writes, what
      is on the wire is the stream with only the byte at the chosen offset toggled, as far as it
      got; in truncating mode it is the stream itself, never past the cap. */
  lemma WireIsToggledStream(stream: Bytes, flip: int, calls: seq<Call>)
    requires Resumes(stream, flip, calls)
    ensures var wire := Run(flip, calls).c.wire;
            && |wire| <= |stream| && wire == ToggleAt(stream, flip)[..|wire|]
            && (flip < -1 ==> |wire| <= -flip - 2 && wire == stream[..|wire|])
  {
    RunCorrupts(flip, calls);
    AcknowledgedIsPrefix(stream, flip, calls);
    var w := Run(flip, calls);
    TogglePrefix(stream, flip, |w.acknowledged|);
  }

  // ---- Truncation

  /** A write past the cap reports an error, and one within it succeeds exactly when the underlying
      connection takes every fragment. */
  lemma WriteReportsTruncation(c: Conn, b: Bytes, responses: seq<Response>)
    requires c.flip < -1 ==> |c.wire| <= Cap(c)
    ensures var (c', n, error) := Write(c, b, responses);
            && (Truncates(c, b) ==> error.Some? && c'.cut)
            && (error == Some(UnexpectedEOF) ==> Truncates(c, b) && |c'.wire| == Cap(c))
            && (error.None? ==> n == |b| && !Truncates(c, b))
  {
    FragmentsNeverEOF(Outgoing(c, b), if c.cut then [] else responses);
  }

  lemma {:induction false} FragmentsNeverEOF(buffer: Bytes, responses: seq<Response>)
    ensures Fragments(buffer, responses).1 != Some(UnexpectedEOF)
    decreases |buffer|
  {
    if buffer != [] && responses != [] {
      var written := Min(responses[0].written, Min(FRAGMENT, |buffer|));
      if written > 0 { FragmentsNeverEOF(buffer[written..], responses[1..]); }
    }
  }

  /** Once cut, the connection takes nothing more. */
  lemma NothingAfterCut(c: Conn, b: Bytes, responses: seq<Response>)
    requires c.cut
    ensures Write(c, b, responses).0.wire == c.wire
  {
  }

  // ---- The connection object

  // One more piece off the front of what is left.
  lemma PieceJoins(wire: Bytes, outgoing: Bytes, n: nat, took: nat)
    requires n + took <= |outgoing|
    ensures wire + outgoing[..n + took] == (wire + outgoing[..n]) + outgoing[n..][..took]
    ensures outgoing[n..][took..] == outgoing[n + took..]
  {
  }

  class Connection {
    const flip: int
    var read: nat
    var written: nat
    var cut: bool
    ghost var wire: Bytes

    ghost predicate Valid()
      reads this
    {
      written == |wire|
    }

    ghost function View(): Conn
      reads this
    {
      Conn(flip, wire, cut)
    }

    constructor (flip: int)
      ensures Valid() && View() == Conn(flip, [], false) && read == 0
    {
      this.flip := flip;
      read, written, cut, wire := 0, 0, false, [];
    }

    // At most 13 bytes at a time, and every byte is counted.
    method ReadSome(capacity: nat, available: Bytes) returns (bytes: Bytes)
      modifies this`read
      ensures bytes <= available && |bytes| <= capacity && |bytes| <= READ_LIMIT
      ensures |bytes| == Min(READ_LIMIT, Min(capacity, |available|)) && read == old(read) + |bytes|
    {
      var limit := if capacity > READ_LIMIT then READ_LIMIT else capacity;
      var n := Min(limit, |available|);
      bytes := available[..n];
      read := read + n;
    }

    method WriteAll(b: Bytes, responses: seq<Response>) returns (n: nat, error: Option<Error>)
      requires Valid()
      modifies this`written, this`cut, this`wire
      ensures Valid() && (View(), n, error) == Write(old(View()), b, responses)
    {
      var copyBytes := b;
      var truncate := flip < -1 && written + |b| > -flip - 2;
      if truncate {
        copyBytes := copyBytes[..if -flip - 2 - written > 0 then -flip - 2 - written else 0];
      }
      if flip >= written && flip < written + |b| {
        copyBytes := copyBytes[flip - written := Toggled(copyBytes[flip - written])];
      }
      ghost var outgoing := copyBytes;
      assert outgoing == Outgoing(View(), b);
      n, error := SendFragments(copyBytes, if cut then [] else responses);
      if truncate { cut := true; }
      if error.None? && truncate { error := Some(UnexpectedEOF); }
    }

    method SendFragments(outgoing: Bytes, responses: seq<Response>) returns (n: nat, error: Option<Error>)
      requires Valid()
      modifies this`written, this`wire
      ensures Valid() && (n, error) == Fragments(outgoing, responses)
      ensures wire == old(wire) + outgoing[..n]
    {
      n, error := 0, None;
      var copyBytes, answers := outgoing, responses;
      assert old(wire) + outgoing[..0] == old(wire);
      while |copyBytes| > 0
        invariant Valid() && n <= |outgoing| && copyBytes == outgoing[n..] && wire == old(wire) + outgoing[..n]
        invariant error.None?
        invariant var rest := Fragments(copyBytes, answers); Fragments(outgoing, responses) == (n + rest.0, rest.1)
        decreases |copyBytes|
      {
        if answers == [] { return n, Some(Underlying); }
        var length := Min(FRAGMENT, |copyBytes|);
        var took := Min(answers[0].written, length);
        PieceJoins(old(wire), outgoing, n, took);
        wire := wire + copyBytes[..took];
        n := n + took;
        written := written + took;
        copyBytes := copyBytes[took..];
        if answers[0].failed { return n, Some(Underlying); }
        if took == 0 { return n, Some(ShortWrite); }
        answers := answers[1..];
      }
    }
  }
}
