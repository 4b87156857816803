/**
 The timeline as a file: the report tool refuses a log with a line of more
 than 4096 bytes before it looks at any event, and the tools that append have
 no such limit. A line is one JSON object with its names sorted, in ASCII.
 */
module TimelineLines {
  import opened Options
  import opened Decimals
  import opened Timeline
  import opened ReportBuilder
  import opened TransitionMarker
  import opened AcceptedTimelines
  import opened CampaignRun
  import opened CampaignOutcomes
  import opened OverlappingMarkers

  const MAX_LINE := 4096

  // ---- The length of a line

  function WordLength(word: Word): nat {
    match word
    case BuildStart => 20
    case CampaignStart => 14
    case CampaignEnd => 12
    case Probe => 5
    case Scenario => 8
    case HttpWord => 4
    case UdpWord => 3
    case BeginWord => 5
    case NoteWord => 4
    case PassedWord => 6
    case FailedWord => 6
  }

  // json.dumps with ASCII escapes: two bytes for a short escape, six for \uXXXX, twelve for a pair.
  function CharLength(c: char): nat {
    var code := c as int;
    if code == 0x22 || code == 0x5c || 0x08 <= code <= 0x0a || 0x0c <= code <= 0x0d then 2
    else if 0x20 <= code < 0x7f then 1
    else if code <= 0xffff then 6
    else 12
  }

  function TextLength(s: string): nat {
    if s == [] then 0 else CharLength(s[0]) + TextLength(s[1..])
  }

  /** A value as written. Timestamps are written to the whole second; no tool writes a float, an
      array or an object. */
  function ValueLength(j: Json): nat {
    match j
    case Absent => 0
    case Null => 4
    case Bool(b) => if b then 4 else 5
    case Int(n) => if n < 0 then 1 + |Decimal(-n)| else |Decimal(n)|
    case Literal(word) => WordLength(word) + 2
    case Stamp(_) => 22
    case Text(s) => TextLength(s) + 2
    case Float(_) => 0
    case Container => 0
  }

  // A quoted name, a colon and a space, the value, and what separates or closes.
  function FieldLength(name: nat, j: Json): nat {
    if j.Absent? then 0 else name + 6 + ValueLength(j)
  }

  /** The bytes of a record's line, the final newline included. */
  function LineLength(e: Event): nat {
    1 + FieldLength(2, e.at) + FieldLength(7, e.attempt) + FieldLength(14, e.elapsed) + FieldLength(9, e.errorCode)
    + FieldLength(5, e.event) + FieldLength(4, e.kind) + FieldLength(5, e.notes) + FieldLength(5, e.phase)
    + FieldLength(6, e.result) + FieldLength(10, e.scenarioId) + FieldLength(8, e.sequence)
  }

  predicate Loads(log: seq<Event>) {
    forall i :: 0 <= i < |log| ==> LineLength(log[i]) <= MAX_LINE
  }

  // The loop of load_timeline over lines that the tools wrote.
  method LoadTimeline(log: seq<Event>) returns (ok: bool)
    ensures ok <==> Loads(log)
  {
    for i := 0 to |log|
      invariant Loads(log[..i])
    {
      if LineLength(log[i]) > MAX_LINE { return false; }
      assert log[..i + 1] == log[..i] + [log[i]];
    }
    assert log[..|log|] == log;
    ok := true;
  }

  // ---- What the tools write

  function PhaseLength(phase: Phase): nat {
    match phase
    case Begin => 5
    case Note => 4
    case Passed => 6
    case Failed => 6
  }

  /** The line of a marker, from its arguments and its elapsed time. */
  function MarkerLine(request: Request, elapsed: nat): nat
    requires request.attempt >= 0
  {
    129 + TextLength(request.notes) + |Decimal(request.attempt)| + |Decimal(elapsed)|
    + PhaseLength(request.phase) + |request.id|
  }

  lemma {:induction false} PlainText(s: string)
    requires forall i :: 0 <= i < |s| ==> 0x20 <= s[i] as int < 0x7f && s[i] as int != 0x22 && s[i] as int != 0x5c
    ensures TextLength(s) == |s|
  {
    if s != [] { PlainText(s[1..]); }
  }

  lemma IdIsPlain(id: string)
    requires ScenarioId(id)
    ensures TextLength(id) == |id|
  {
    assert forall i :: 0 <= i < |id| ==> IdChar(id[i]) || id[i] == '-';
    PlainText(id);
  }

  /** The length of a marker's line is what its arguments make it. */
  lemma MarkerLineLength(startedAt: int, at: int, request: Request)
    requires ScenarioId(request.id) && request.attempt >= 1
    ensures LineLength(MarkerEvent(startedAt, at, request)) == MarkerLine(request, ElapsedSince(startedAt, at))
  {
    hide TextLength, Decimal, ScenarioId, ElapsedSince;
    IdIsPlain(request.id);
  }

  predicate IsStart(e: Event) {
    && e.at.Stamp?
    && (e == StartEvent(BuildStart, e.at.micros) || e == StartEvent(CampaignStart, e.at.micros))
  }

  predicate IsEnd(e: Event, duration: nat) {
    && e.at.Stamp?
    && e == EmptyEvent.(event := Literal(CampaignEnd), at := e.at, elapsed := Int(duration),
                         result := Literal(PassedWord))
  }

  // What both kinds of probe record share.
  predicate IsProbeRecord(e: Event) {
    e.event == Literal(Probe) && e.at.Stamp? && e.elapsed.Int? && e.elapsed.n >= 0 && KindOf(e.kind).Some?
  }

  predicate IsPassedProbe(e: Event) {
    && IsProbeRecord(e) && e.sequence.Int? && e.sequence.n >= 1
    && e == EmptyEvent.(event := e.event, at := e.at, kind := e.kind, elapsed := e.elapsed,
                        result := Literal(PassedWord), sequence := e.sequence)
  }

  predicate IsFailedProbe(e: Event) {
    && IsProbeRecord(e) && e.errorCode.Text? && ErrorCode(e.errorCode.s)
    && e == EmptyEvent.(event := e.event, at := e.at, kind := e.kind, elapsed := e.elapsed,
                        result := Literal(FailedWord), errorCode := e.errorCode)
  }

  predicate IsMarker(e: Event) {
    && e.at.Stamp? && e.attempt.Int? && e.attempt.n >= 1 && e.elapsed.Int? && e.elapsed.n >= 0
    && e.notes.Text? && PhaseOf(e.phase).Some? && e.scenarioId.Text? && ScenarioId(e.scenarioId.s)
    && e == EmptyEvent.(event := Literal(Scenario), at := e.at, attempt := e.attempt, elapsed := e.elapsed,
                        notes := e.notes, phase := e.phase, scenarioId := e.scenarioId)
  }

  /** A record of the runner or the marker; `others` marks the one of a crash. */
  predicate Written(duration: nat, e: Event) {
    IsStart(e) || IsEnd(e, duration) || IsPassedProbe(e) || IsFailedProbe(e) || IsMarker(e) || e.others
  }

  predicate AllWritten(duration: nat, log: seq<Event>) {
    forall i :: 0 <= i < |log| ==> Written(duration, log[i])
  }

  lemma MarkerWritten(pol: Policy, duration: nat, startedAt: int, at: int, request: Request)
    requires WellFormed(pol, request)
    ensures Written(duration, MarkerEvent(startedAt, at, request))
  {
    hide ScenarioId;
  }

  lemma RunnerWrites(started: int, now: int, kind: Kind, sequence: nat, code: string, duration: nat)
    ensures Written(duration, StartEvent(BuildStart, now)) && Written(duration, StartEvent(CampaignStart, now))
    ensures Written(duration, EndEvent(started, duration)) && Written(duration, CrashEvent(now))
    ensures var e := ProbeEvent(started, now, kind);
            && (sequence >= 1 ==> Written(duration, e.(result := Literal(PassedWord), sequence := Int(sequence))))
            && (ErrorCode(code) ==> Written(duration, e.(result := Literal(FailedWord), errorCode := Text(code))))
  {
    hide ErrorCode, ScenarioId;
  }

  lemma WrittenNext(duration: nat, log: seq<Event>, e: Event)
    requires AllWritten(duration, log) && Written(duration, e)
    ensures AllWritten(duration, log + [e])
  {
  }

  lemma ExecuteWrites(pol: Policy, duration: nat, w: World, action: Action)
    requires AllWritten(duration, w.log)
    ensures AllWritten(duration, Execute(pol, duration, w, action).log)
  {
    hide AllWritten, Written, Rescan, Admits, WellFormed,
         StartEvent, EndEvent, CrashEvent, ProbeEvent, MarkerEvent, ErrorCode;
    var now := w.clock + action.wait;
    var w' := Execute(pol, duration, w, action);
    if w'.log != w.log {
      var e := w'.log[|w.log|];
      assert w'.log == w.log + [e];
      assert Written(duration, e) by {
        match action.deed
        case FirstSample => RunnerWrites(now, WholeSecond(now), Http, 0, "", duration);
        case PassedLine(kind, sequence) => RunnerWrites(w.startedAt.value, now, kind, sequence, "", duration);
        case FailedLine(kind, code) => RunnerWrites(w.startedAt.value, now, kind, 0, code, duration);
        case Finish => RunnerWrites(w.startedAt.value, now, Http, 0, "", duration);
        case Crash => RunnerWrites(now, now, Http, 0, "", duration);
        case Invoke(request) => MarkerWritten(pol, duration, w.startedAt.value, now, request);
        case Close =>
      }
      WrittenNext(duration, w.log, e);
    }
  }

  lemma {:induction false} RunWritten(pol: Policy, duration: nat, openedAt: int, moves: seq<Move>)
    ensures AllWritten(duration, RunCrowd(pol, duration, openedAt, moves).w.log)
  {
    if moves == [] {
      RunnerWrites(openedAt, WholeSecond(openedAt), Http, 0, "", duration);
    } else {
      hide AllWritten, Execute, Passes, WellFormed, Written, MarkerEvent;
      var before, move := moves[..|moves| - 1], moves[|moves| - 1];
      var c := RunCrowd(pol, duration, openedAt, before);
      RunWritten(pol, duration, openedAt, before);
      RunPendingOk(pol, duration, openedAt, before);
      match move
      case Alone(action) => ExecuteWrites(pol, duration, c.w, action);
      case Check(_, _) =>
      case Append(wait, which, at) =>
        if MayAppend(c, c.w.clock + wait, which, at) {
          MarkerWritten(pol, duration, c.w.startedAt.value, at, c.pending[which].request);
          WrittenNext(duration, c.w.log, MarkerEvent(c.w.startedAt.value, at, c.pending[which].request));
        }
    }
  }

  // ---- Which records fit

  function RequestOf(e: Event): Request
    requires IsMarker(e)
  {
    Request(e.scenarioId.s, e.attempt.n, PhaseOf(e.phase).value, e.notes.s)
  }

  /** The line of a passing probe, from its numbers. */
  function ProbeLine(kind: Kind, sequence: nat, elapsed: nat): nat {
    115 + (if kind == Http then 4 else 3) + |Decimal(sequence)| + |Decimal(elapsed)|
  }

  /** The two records whose length their arguments decide: a marker and a passing probe. */
  predicate Fits(e: Event) {
    && (IsMarker(e) ==> MarkerLine(RequestOf(e), e.elapsed.n) <= MAX_LINE)
    && (IsPassedProbe(e) ==> ProbeLine(KindOf(e.kind).value, e.sequence.n, e.elapsed.n) <= MAX_LINE)
  }

  lemma MarkerLength(e: Event)
    requires IsMarker(e)
    ensures LineLength(e) == MarkerLine(RequestOf(e), e.elapsed.n)
  {
    IdIsPlain(e.scenarioId.s);
    hide TextLength, Decimal, ScenarioId;
  }

  lemma PassedProbeLength(e: Event)
    requires IsPassedProbe(e)
    ensures LineLength(e) == ProbeLine(KindOf(e.kind).value, e.sequence.n, e.elapsed.n)
  {
    hide TextLength, Decimal;
  }

  lemma CodeIsPlain(code: string)
    requires ErrorCode(code)
    ensures TextLength(code) == |code| <= 128
  {
    assert forall i :: 0 <= i < |code| ==> CodeChar(code[i]);
    PlainText(code);
  }

  lemma OthersShort(duration: nat, e: Event)
    requires IsStart(e) || ((IsEnd(e, duration) || IsFailedProbe(e)) && |Decimal(e.elapsed.n)| <= 12)
    ensures LineLength(e) <= 300
  {
    if IsFailedProbe(e) { CodeIsPlain(e.errorCode.s); }
    hide TextLength, Decimal, ErrorCode;
  }

  /** Seconds between two instants that Python's datetime can hold have at most twelve digits. */
  const MAX_SECONDS := Pow10(12)

  lemma RecordLoads(meta: Meta, e: Event)
    requires Written(meta.duration, e) && !e.others && meta.duration < MAX_SECONDS
    requires Inside(e) ==> WithinDuration(e, meta.duration)
    ensures LineLength(e) <= MAX_LINE <==> Fits(e)
  {
    hide LineLength, Decimal, TextLength, MarkerLine, ProbeLine;
    if IsMarker(e) {
      MarkerLength(e);
    } else if IsPassedProbe(e) {
      PassedProbeLength(e);
    } else {
      if IsFailedProbe(e) { assert e.HasExactly(FailedProbeFields); }
      if !IsStart(e) { DecimalShort(e.elapsed.n, 12); }
      OthersShort(meta.duration, e);
    }
  }

  lemma CleanLoads(meta: Meta, log: seq<Event>)
    requires AllWritten(meta.duration, log) && Clean(meta.duration, log) && meta.duration < MAX_SECONDS
    ensures Loads(log) <==> forall i :: 0 <= i < |log| ==> Fits(log[i])
  {
    hide Written, Fits, LineLength, Inside, WithinDuration;
    forall i | 0 <= i < |log|
      ensures LineLength(log[i]) <= MAX_LINE <==> Fits(log[i])
    {
      RecordLoads(meta, log[i]);
    }
  }

  /** Loading and replaying together, over every run with overlapping invocations: the log is
      accepted exactly when it is clean, in order and readmitted, and every marker and every passing
      probe was short enough. */
  lemma LoadedIff(pol: Policy, meta: Meta, openedAt: int, moves: seq<Move>)
    requires pol.Valid() && Describes(meta, RunCrowd(pol, meta.duration, openedAt, moves).w)
    requires meta.duration < MAX_SECONDS
    ensures var log := RunCrowd(pol, meta.duration, openedAt, moves).w.log;
            Loads(log) && Replay(pol, meta, log).Ok? <==>
              && Clean(meta.duration, log) && InOrder(log) && AllReadmitted(pol, log)
              && forall i :: 0 <= i < |log| ==> Fits(log[i])
  {
    hide RunCrowd, Replay, Clean, InOrder, AllReadmitted, AllWritten, Loads, Fits;
    var log := RunCrowd(pol, meta.duration, openedAt, moves).w.log;
    RunWritten(pol, meta.duration, openedAt, moves);
    CrowdAcceptedIff(pol, meta, openedAt, moves);
    if Clean(meta.duration, log) { CleanLoads(meta, log); }
  }

  /** The report tool as a whole: it produces a report exactly when in addition the campaign finished,
      no attempt is left open and every required scenario passed often enough. */
  lemma ReportProducedIff(pol: Policy, meta: Meta, openedAt: int, moves: seq<Move>)
    requires pol.Valid() && Describes(meta, RunCrowd(pol, meta.duration, openedAt, moves).w)
    requires meta.duration < MAX_SECONDS
    ensures var w := RunCrowd(pol, meta.duration, openedAt, moves).w;
            Loads(w.log) && Build(pol, meta, w.log).Ok? <==>
              && Clean(meta.duration, w.log) && InOrder(w.log) && AllReadmitted(pol, w.log)
              && (forall i :: 0 <= i < |w.log| ==> Fits(w.log[i]))
              && w.finished
              && (forall i :: 0 <= i < |pol.required| ==> Settled(w.log, pol.required[i].0))
              && (forall i :: 0 <= i < |pol.required| ==>
                    CountMarkers(w.log, pol.required[i].0, Passed) >= pol.required[i].1)
  {
    hide RunCrowd, Build, Clean, InOrder, AllReadmitted, AllWritten, Loads, Fits, Settled, CountMarkers;
    var log := RunCrowd(pol, meta.duration, openedAt, moves).w.log;
    RunWritten(pol, meta.duration, openedAt, moves);
    CrowdReportIff(pol, meta, openedAt, moves);
    if Clean(meta.duration, log) { CleanLoads(meta, log); }
  }

  // ---- Ordinary markers always fit

  lemma {:induction false} NarrowText(s: string)
    requires forall i :: 0 <= i < |s| ==> s[i] as int <= 0xffff
    ensures TextLength(s) <= 6 * |s|
  {
    if s != [] { NarrowText(s[1..]); }
  }

  /** A marker without characters above U+FFFF in its note fits, unless its attempt number has more
      than 700 digits. */
  lemma OrdinaryMarkerFits(pol: Policy, request: Request, elapsed: nat)
    requires WellFormed(pol, request) && elapsed < MAX_SECONDS
    requires forall i :: 0 <= i < |request.notes| ==> request.notes[i] as int <= 0xffff
    requires |Decimal(request.attempt)| <= 700
    ensures MarkerLine(request, elapsed) <= MAX_LINE
  {
    NarrowText(request.notes);
    DecimalShort(elapsed, 12);
    hide TextLength, Decimal;
  }

  /** No marker whose attempt number has more than 3967 digits fits. */
  lemma LongAttemptDoesNotFit(request: Request, elapsed: nat)
    requires request.attempt >= Pow10(3967)
    ensures MarkerLine(request, elapsed) > MAX_LINE
  {
    hide TextLength, Decimal;
    DecimalLong(request.attempt, 3967);
  }

  lemma {:induction false} WideText(s: string)
    requires forall i :: 0 <= i < |s| ==> s[i] as int > 0xffff
    ensures TextLength(s) == 12 * |s|
  {
    if s != [] { WideText(s[1..]); }
  }
}
