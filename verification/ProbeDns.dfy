/**
 The two DNS responders of the device probes: one walks the labels of the
 question (section 4.1.2 of RFC 1035), the other matches fixed offsets.
 */
module ProbeDns {
  import opened Options
  import opened Wire

  datatype Reason =
    | TooShort | NameTruncated | BadName | LabelTruncated | TypeTruncated
    | NotOneQuestion | NotStandard | HasRecords | BadSize | BadLabel | BadNonce | WrongName

  datatype Result<T> = Ok(value: T) | Err(reason: Reason)

  // ---- The walk over labels

  function Walk(query: Bytes, offset: nat): (r: Result<nat>)
    ensures r.Ok? ==> offset + 5 <= r.value <= |query|
    decreases |query| - offset
  {
    if offset >= |query| then Err(NameTruncated)
    else
      var length, next := query[offset] as nat, offset + 1;
      if length == 0 then (if next + 4 > |query| then Err(TypeTruncated) else Ok(next + 4))
      else if length > 63 then Err(BadName)
      else if next + length > |query| then Err(LabelTruncated)
      else Walk(query, next + length)
  }

  function QuestionEnd(query: Bytes): Result<nat> {
    if |query| < 17 then Err(TooShort) else Walk(query, 12)
  }

  // dns_question_end
  method FindQuestionEnd(query: Bytes) returns (r: Result<nat>)
    ensures r == QuestionEnd(query)
  {
    if |query| < 17 { return Err(TooShort); }
    var offset := 12;
    while true
      invariant 12 <= offset <= |query| && Walk(query, offset) == Walk(query, 12)
      decreases |query| - offset
    {
      if offset >= |query| { return Err(NameTruncated); }
      var length := query[offset];
      offset := offset + 1;
      if length == 0 { break; }
      if length > 63 { return Err(BadName); }
      offset := offset + length;
      if offset > |query| { return Err(LabelTruncated); }
    }
    var end := offset + 4;
    if end > |query| { return Err(TypeTruncated); }
    r := Ok(end);
  }

  // A name is its labels, each after its length, and a zero.
  function EncodeName(labels: seq<Bytes>): Bytes
    requires forall i :: 0 <= i < |labels| ==> 1 <= |labels[i]| <= 63
  {
    if labels == [] then [0] else [|labels[0]|] + labels[0] + EncodeName(labels[1..])
  }

  ghost predicate IsQuestion(s: Bytes, labels: seq<Bytes>) {
    && (forall i :: 0 <= i < |labels| ==> 1 <= |labels[i]| <= 63)
    && |s| == |EncodeName(labels)| + 4 && EncodeName(labels) <= s
  }

  /** A walk that ends has passed exactly one encoded name and four more bytes. */
  lemma {:induction false} WalkSplitsLabels(query: Bytes, offset: nat) returns (labels: seq<Bytes>)
    requires Walk(query, offset).Ok?
    ensures IsQuestion(query[offset..Walk(query, offset).value], labels)
    decreases |query| - offset
  {
    var end := Walk(query, offset).value;
    var length, next := query[offset] as nat, offset + 1;
    if length == 0 {
      labels := [];
      assert query[offset..end][0] == 0;
    } else {
      var rest := WalkSplitsLabels(query, next + length);
      labels := [query[next..next + length]] + rest;
      assert labels[1..] == rest;
      assert query[offset..end] == [query[offset]] + query[next..next + length] + query[next + length..end];
    }
  }

  /** An encoded name and four more bytes are walked to their end, whatever follows. */
  lemma {:induction false} LabelsAreWalked(before: Bytes, question: Bytes, after: Bytes, labels: seq<Bytes>)
    requires IsQuestion(question, labels)
    ensures Walk(before + question + after, |before|) == Ok(|before| + |question|)
    decreases |labels|
  {
    var query, at := before + question + after, |before|;
    assert query[at] == question[0];
    if labels != [] {
      var length := |labels[0]|;
      var head := [length] + labels[0];
      assert EncodeName(labels) == head + EncodeName(labels[1..]);
      var rest := question[1 + length..];
      assert question == head + rest;
      assert query == (before + head) + rest + after;
      LabelsAreWalked(before + head, rest, after, labels[1..]);
    }
  }

  /** The question's end is found exactly when a name and a type and class follow the header. */
  lemma EndIffQuestion(query: Bytes, end: nat)
    ensures QuestionEnd(query) == Ok(end) <==>
            17 <= |query| && 12 <= end <= |query| && exists labels :: IsQuestion(query[12..end], labels)
  {
    if QuestionEnd(query) == Ok(end) {
      var labels := WalkSplitsLabels(query, 12);
    }
    if 17 <= |query| && 12 <= end <= |query| && exists labels :: IsQuestion(query[12..end], labels) {
      var labels :| IsQuestion(query[12..end], labels);
      LabelsAreWalked(query[..12], query[12..end], query[end..], labels);
      assert query == query[..12] + query[12..end] + query[end..];
    }
  }

  // ---- The two responders

  const XRAY: Bytes := [0x78, 0x72, 0x61, 0x79, 0x2d]
  const SUFFIX: Bytes := [7, 0x65, 0x78, 0x61, 0x6d, 0x70, 0x6c, 0x65, 3, 0x63, 0x6f, 0x6d, 0, 0, 1, 0, 1]
  const FLAGS: Bytes := [0x01, 0x00]
  const COUNTS: Bytes := [0, 1, 0, 0, 0, 0, 0, 0]
  const REPLY_HEADER: Bytes := [0x81, 0x80, 0, 1, 0, 1, 0, 0, 0, 0]
  const ANSWER: Bytes := [0xc0, 0x0c, 0, 1, 0, 1, 0, 0, 0, 0, 0, 4, 203, 0, 113, 1]

  predicate IsHex(b: byte) {
    0x30 <= b <= 0x39 || 0x61 <= b <= 0x66
  }

  predicate AllHex(s: Bytes) {
    forall i :: 0 <= i < |s| ==> IsHex(s[i])
  }

  // build_dns_response
  function Respond(query: Bytes): Result<Bytes> {
    var end := QuestionEnd(query);
    if end.Err? then Err(end.reason)
    else if |query| != end.value then Err(NotOneQuestion)
    else if query[2..4] != FLAGS then Err(NotStandard)
    else if query[4..12] != COUNTS then Err(HasRecords)
    else Answer(query[..2], query[12..end.value])
  }

  function Answer(id: Bytes, question: Bytes): Result<Bytes> {
    if |question| != 1 + 37 + |SUFFIX| then Err(BadSize)
    else
      var nonce := question[1..38];
      if question[0] != |nonce| || !(XRAY <= nonce) then Err(BadLabel)
      else if !AllHex(nonce[|XRAY|..]) then Err(BadNonce)
      else if question[38..] != SUFFIX then Err(WrongName)
      else Ok(id + REPLY_HEADER + question + ANSWER)
  }

  // oracle_reply
  function OracleReply(query: Bytes): Option<Bytes> {
    if |query| != 67 || query[2..12] != FLAGS + COUNTS || query[12] != 37 || query[13..18] != XRAY
       || !AllHex(query[18..50]) || query[50..] != SUFFIX then None
    else Some(query[..2] + REPLY_HEADER + query[12..] + ANSWER)
  }

  // The four steps of the walk over a query of the matched form.
  lemma MatchedWalk(query: Bytes)
    requires |query| == 67 && query[12] == 37 && query[50..] == SUFFIX
    ensures QuestionEnd(query) == Ok(67)
  {
    assert query[50] == SUFFIX[0] && query[58] == SUFFIX[8] && query[62] == SUFFIX[12];
    assert Walk(query, 62) == Ok(67);
    assert Walk(query, 58) == Walk(query, 62);
    assert Walk(query, 50) == Walk(query, 58);
  }

  lemma MatchedAnswer(query: Bytes)
    requires OracleReply(query).Some?
    ensures Respond(query) == Ok(OracleReply(query).value)
  {
    MatchedWalk(query);
    hide Walk, QuestionEnd;
    var question := query[12..67];
    assert query[2..4] == query[2..12][..2] && query[4..12] == query[2..12][2..];
    assert question == query[12..];
    assert question[1..38] == query[13..50] &&
           question[1..38][..5] == query[13..18] && question[1..38][5..] == query[18..50];
    assert question[38..] == query[50..];
  }

  lemma AnsweredIsMatched(query: Bytes)
    requires Respond(query).Ok?
    ensures OracleReply(query).Some?
  {
    hide Walk;
    assert |query| == 67;
    var question := query[12..67];
    assert query[2..12] == query[2..4] + query[4..12];
    assert question[1..38] == query[13..50] &&
           question[1..38][..5] == query[13..18] && question[1..38][5..] == query[18..50];
    assert question[38..] == query[50..];
  }

  /** For every byte string the two responders both refuse, or both answer with the same bytes. */
  lemma RespondersAgree(query: Bytes)
    ensures Respond(query).Ok? <==> OracleReply(query).Some?
    ensures Respond(query).Ok? ==> Respond(query).value == OracleReply(query).value
  {
    hide Respond, OracleReply;
    if Respond(query).Ok? {
      AnsweredIsMatched(query);
    }
    if OracleReply(query).Some? {
      MatchedAnswer(query);
    }
  }
}
