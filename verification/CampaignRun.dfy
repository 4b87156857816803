/**
 Whole campaigns: every interleaving of the runner's appends, marker
 invocations, a crash and the removal of the state file, under a clock that
 never steps back. A marker's read, check and append are one step here; the
 tools take no lock (see OverlappingMarkers).
 */
module CampaignRun {
  import opened Options
  import opened Timeline
  import opened ReportBuilder
  import opened TransitionMarker
  import opened AcceptedTimelines
  import MarkerSimulation

  datatype Deed =
    | FirstSample                                   // the device prints its first sample
    | PassedLine(kind: Kind, sequence: nat)         // a passing probe line
    | FailedLine(kind: Kind, code: string)          // a failed probe line
    | Invoke(request: Request)                      // someone runs the marker tool
    | Finish                                        // the device run succeeded
    | Crash                                         // the runner raised
    | Close                                         // the state file is removed

  /** A deed, some microseconds after the one before it. */
  datatype Action = Action(wait: nat, deed: Deed)

  /** The timeline file and the runner's variables. The state file says "running" from the first
      sample until it is removed. */
  datatype World = World(log: seq<Event>, startedAt: Option<int>, finished: bool, closed: bool, clock: int)

  function StartEvent(word: Word, at: int): Event {
    EmptyEvent.(event := Literal(word), at := Stamp(at))
  }

  function ProbeEvent(started: int, now: int, kind: Kind): Event {
    EmptyEvent.(event := Literal(Probe), at := Stamp(WholeSecond(now)), kind := KindText(kind),
                elapsed := Int(ElapsedSince(started, WholeSecond(now))))
  }

  function EndEvent(started: int, duration: nat): Event {
    EmptyEvent.(event := Literal(CampaignEnd), at := Stamp(started + duration * SECOND), elapsed := Int(duration),
                result := Literal(PassedWord))
  }

  // The failed campaign-end record carries an errorType field and no elapsedSeconds.
  function CrashEvent(now: int): Event {
    EmptyEvent.(event := Literal(CampaignEnd), at := Stamp(WholeSecond(now)),
                    result := Literal(FailedWord), others := true)
  }

  function Open(now: int): World {
    World([StartEvent(BuildStart, WholeSecond(now))], None, false, false, now)
  }

  /** One step of a campaign whose last device sample is at `duration` seconds. */
  function Execute(pol: Policy, duration: nat, w: World, action: Action): World {
    var now := w.clock + action.wait;
    var w := w.(clock := now);
    match action.deed
    case FirstSample =>
      if w.startedAt.Some? || w.finished || w.closed then w else
      w.(log := w.log + [StartEvent(CampaignStart, WholeSecond(now))], startedAt := Some(WholeSecond(now)))
    case PassedLine(kind, sequence) =>
      if w.startedAt.None? || w.finished || w.closed || sequence == 0 then w else
      w.(log := w.log + [ProbeEvent(w.startedAt.value, now, kind)
                         .(result := Literal(PassedWord), sequence := Int(sequence))])
    case FailedLine(kind, code) =>
      if w.startedAt.None? || w.finished || w.closed || !ErrorCode(code) then w else
      w.(log := w.log + [ProbeEvent(w.startedAt.value, now, kind)
                         .(result := Literal(FailedWord), errorCode := Text(code))])
    case Invoke(request) =>
      if w.closed then w else
      (match Mark(pol, w.log, w.startedAt, now, request)
       case None => w
       case Some(event) => w.(log := w.log + [event]))
    case Finish =>
      if w.startedAt.None? || w.finished || w.closed then w else
      w.(log := w.log + [EndEvent(w.startedAt.value, duration)], finished := true)
    case Crash =>
      if w.closed then w else w.(log := w.log + [CrashEvent(now)], finished := true)
    case Close => w.(closed := true)
  }

  /** The campaign opened at instant `openedAt` after all the actions. */
  function Run(pol: Policy, duration: nat, openedAt: int, actions: seq<Action>): World {
    if actions == [] then Open(openedAt)
    else Execute(pol, duration, Run(pol, duration, openedAt, actions[..|actions| - 1]), actions[|actions| - 1])
  }

  // ---- What the run has to avoid

  predicate PrintableNotes(e: Event) {
    PrintableString(e.notes, 512)
  }

  predicate WithinDuration(e: Event, duration: nat) {
    e.elapsed.Int? && e.elapsed.n <= duration
  }

  ghost predicate RisingSequences(log: seq<Event>) {
    forall i, j, kind ::
      0 <= i < j < |log| && ProbeAt(log, i, kind, PassedWord) && ProbeAt(log, j, kind, PassedWord) ==>
        log[i].sequence.Int? && log[j].sequence.Int? && log[i].sequence.n < log[j].sequence.n
  }

  /** No record later than the last device sample, passing probe numbers rising, no note that only
      the marker finds printable, nothing after the campaign end, no crash. */
  ghost predicate Clean(duration: nat, log: seq<Event>) {
    && (forall i :: 0 <= i < |log| && Inside(log[i]) ==> WithinDuration(log[i], duration))
    && RisingSequences(log)
    && (forall i :: 0 <= i < |log| && IsScenario(log[i]) ==> PrintableNotes(log[i]))
    && (forall i :: 0 <= i < |log| - 1 ==> log[i].event != Literal(CampaignEnd))
    && (forall i :: 0 <= i < |log| ==> !log[i].others)
  }

  lemma CleanPrefix(duration: nat, log: seq<Event>, e: Event)
    requires Clean(duration, log + [e])
    ensures Clean(duration, log)
    ensures forall i :: 0 <= i < |log| ==> log[i].event != Literal(CampaignEnd)
    ensures Inside(e) ==> WithinDuration(e, duration)
    ensures IsScenario(e) ==> PrintableNotes(e)
    ensures !e.others
    ensures forall i, kind :: ProbeAt(log, i, kind, PassedWord) && ProbeAt(log + [e], |log|, kind, PassedWord) ==>
              log[i].sequence.Int? && e.sequence.Int? && log[i].sequence.n < e.sequence.n
  {
    var long := log + [e];
    assert forall i :: 0 <= i < |log| ==> long[i] == log[i];
    assert long[|log|] == e;
    forall i, j, kind | 0 <= i < j < |log| && ProbeAt(log, i, kind, PassedWord) && ProbeAt(log, j, kind, PassedWord)
      ensures log[i].sequence.Int? && log[j].sequence.Int? && log[i].sequence.n < log[j].sequence.n
    {
      assert ProbeAt(long, i, kind, PassedWord) && ProbeAt(long, j, kind, PassedWord);
    }
    forall i, kind | ProbeAt(log, i, kind, PassedWord) && ProbeAt(long, |log|, kind, PassedWord)
      ensures log[i].sequence.Int? && e.sequence.Int? && log[i].sequence.n < e.sequence.n
    {
      assert ProbeAt(long, i, kind, PassedWord);
    }
  }

  // ---- Clean runs are accepted

  ghost predicate Sequenced(p: Probes, log: seq<Event>) {
    forall kind :: kind in p.sequences ==>
      exists i :: ProbeAt(log, i, kind, PassedWord) && log[i].sequence == Int(p.sequences[kind])
  }

  // The builder's state against the world whose log it has replayed.
  ghost predicate Linked(meta: Meta, w: World, s: State) {
    && s.running == w.startedAt.Some? && s.ended == w.finished && s.buildStarts == 1
    && s.previousAt.Some? && s.previousElapsed <= meta.duration
    && (s.ended ==> s.running)
    && (!s.running ==> s.previousElapsed == -1 && s.previousAt.value == WholeSecond(s.previousAt.value) <= w.clock)
    && (s.running ==>
          && w.startedAt == Some(meta.startedAt) && WholeSecond(meta.startedAt) == meta.startedAt <= w.clock
          && s.previousElapsed <= ElapsedSince(meta.startedAt, w.clock))
    && (s.running && !s.ended ==>
          s.previousAt.value == meta.startedAt + (if s.previousElapsed < 0 then 0 else s.previousElapsed) * SECOND)
    && Sequenced(s.probes, w.log)
  }

  // A record's whole-second timestamp and its elapsed seconds tell the same instant.
  lemma StampMatchesElapsed(started: int, now: int)
    requires started % SECOND == 0 && started <= now
    ensures started <= WholeSecond(now)
    ensures WholeSecond(now) == started + ElapsedSince(started, now) * SECOND
    ensures ElapsedSince(started, WholeSecond(now)) == ElapsedSince(started, now)
  {
    var k, m := started / SECOND, now / SECOND;
    assert started == k * SECOND && m * SECOND <= now < (m + 1) * SECOND;
    assert WholeSecond(now) == m * SECOND;
    assert ElapsedSince(started, now) == m - k;
  }

  lemma ElapsedGrows(started: int, now: int, later: int)
    requires started <= now <= later
    ensures ElapsedSince(started, now) <= ElapsedSince(started, later)
  {
  }

  lemma SequencedKept(p: Probes, log: seq<Event>, e: Event)
    requires Sequenced(p, log)
    ensures Sequenced(p, log + [e])
  {
    forall kind | kind in p.sequences
      ensures exists i :: ProbeAt(log + [e], i, kind, PassedWord) && (log + [e])[i].sequence == Int(p.sequences[kind])
    {
      var i :| ProbeAt(log, i, kind, PassedWord) && log[i].sequence == Int(p.sequences[kind]);
      assert ProbeAt(log + [e], i, kind, PassedWord);
    }
  }

  // Timing accepts a record made now.
  lemma TimingAccepts(meta: Meta, w: World, s: State, now: int, e: Event)
    requires Linked(meta, w, s) && s.running && !s.ended && w.clock <= now
    requires e.at == Stamp(WholeSecond(now)) && e.elapsed == Int(ElapsedSince(meta.startedAt, now))
    requires WithinDuration(e, meta.duration)
    ensures Timing(meta, s.previousElapsed, e) == Ok((e.elapsed.n, e.at.micros))
    ensures s.previousAt.value <= e.at.micros == meta.startedAt + e.elapsed.n * SECOND
  {
    StampMatchesElapsed(meta.startedAt, now);
    ElapsedGrows(meta.startedAt, w.clock, now);
  }

  // A probe record as the runner writes it.
  predicate ProbeRecord(e: Event, started: int, now: int, kind: Kind) {
    || (e.sequence.Int? && e.sequence.n >= 1
        && e == ProbeEvent(started, now, kind).(result := Literal(PassedWord), sequence := e.sequence))
    || (CodeString(e.errorCode)
        && e == ProbeEvent(started, now, kind).(result := Literal(FailedWord), errorCode := e.errorCode))
  }

  lemma ProbeRecordFields(e: Event, started: int, now: int, kind: Kind)
    requires ProbeRecord(e, started, now, kind)
    ensures IsProbe(e) && KindOf(e.kind) == Some(kind)
    ensures e.HasExactly(if e.result == Literal(PassedWord) then PassedProbeFields else FailedProbeFields)
    ensures e.result in {Literal(PassedWord), Literal(FailedWord)}
  {
  }

  // A clean log's next passing number is above the dictionary's.
  lemma NextSequenceRises(duration: nat, log: seq<Event>, p: Probes, e: Event, kind: Kind)
    requires Sequenced(p, log) && Clean(duration, log + [e])
    requires IsProbe(e) && KindOf(e.kind) == Some(kind) && e.result == Literal(PassedWord)
    requires e.sequence.Int? && e.sequence.n >= 1
    ensures e.sequence.n > Lookup(p.sequences, kind, 0)
  {
    CleanPrefix(duration, log, e);
    assert ProbeAt(log + [e], |log|, kind, PassedWord);
    if kind in p.sequences {
      var i :| ProbeAt(log, i, kind, PassedWord) && log[i].sequence == Int(p.sequences[kind]);
    }
  }

  lemma ProbeCounted(duration: nat, log: seq<Event>, p: Probes, e: Event, started: int, now: int, kind: Kind)
    requires Sequenced(p, log) && ProbeRecord(e, started, now, kind) && Clean(duration, log + [e])
    ensures CountProbe(p, |log|, kind, e).Ok?
    ensures Sequenced(CountProbe(p, |log|, kind, e).value, log + [e])
  {
    ProbeRecordFields(e, started, now, kind);
    SequencedKept(p, log, e);
    if e.result == Literal(PassedWord) {
      NextSequenceRises(duration, log, p, e, kind);
      assert ProbeAt(log + [e], |log|, kind, PassedWord) && (log + [e])[|log|].sequence == e.sequence;
    }
  }

  lemma ProbeAccepted(pol: Policy, meta: Meta, w: World, s: State, now: int, e: Event, kind: Kind)
    requires Linked(meta, w, s) && s.running && !s.ended && w.clock <= now
    requires ProbeRecord(e, meta.startedAt, now, kind) && Clean(meta.duration, w.log + [e])
    ensures Step(pol, meta, s, |w.log|, e).Ok?
    ensures Linked(meta, w.(log := w.log + [e], clock := now), Step(pol, meta, s, |w.log|, e).value)
  {
    ProbeRecordFields(e, meta.startedAt, now, kind);
    ProbeCounted(meta.duration, w.log, s.probes, e, meta.startedAt, now, kind);
    StampMatchesElapsed(meta.startedAt, now);
    assert WithinDuration(e, meta.duration) by { CleanPrefix(meta.duration, w.log, e); }
    TimingAccepts(meta, w, s, now, e);
    assert StepProbe(meta, s, |w.log|, e).Ok?;
  }

  lemma RequestIdPrintable(id: string)
    requires ScenarioId(id)
    ensures PrintableText(id, 128)
  {
    assert forall i :: 0 <= i < |id| ==> IdChar(id[i]) || id[i] == '-';
  }

  // A well-formed marker at the right time steps exactly as its attempt does.
  lemma MarkerStep(pol: Policy, meta: Meta, s: State, index: nat, now: int, request: Request, tracker: Tracker)
    requires WellFormed(pol, request) && PrintableText(request.notes, 512) && s.running && !s.ended
    requires var e := MarkerEvent(meta.startedAt, now, request);
             && Timing(meta, s.previousElapsed, e) == Ok((e.elapsed.n, e.at.micros))
             && s.previousAt.Some? && s.previousAt.value <= e.at.micros
    requires StepAttempt(pol, s.tracker, s.probes, index, Key(request.id, request.attempt), PhaseText(request.phase))
          == Ok(tracker)
    ensures var e := MarkerEvent(meta.startedAt, now, request);
            Step(pol, meta, s, index, e)
            == Ok(s.(tracker := tracker, previousElapsed := e.elapsed.n, previousAt := Some(e.at.micros)))
  {
    RequestIdPrintable(request.id);
    assert MarkerEvent(meta.startedAt, now, request).HasExactly(ScenarioFields);
  }

  // The builder accepts the log so far and its state matches the world.
  ghost predicate Good(pol: Policy, meta: Meta, w: World) {
    Replay(pol, meta, w.log).Ok? && Linked(meta, w, Replay(pol, meta, w.log).value)
  }

  lemma GoodAppend(pol: Policy, meta: Meta, w: World, e: Event, w': World)
    requires Good(pol, meta, w) && w'.log == w.log + [e]
    requires var step := Step(pol, meta, Replay(pol, meta, w.log).value, |w.log|, e);
             step.Ok? && Linked(meta, w', step.value)
    ensures Good(pol, meta, w')
  {
    assert w'.log[..|w.log|] == w.log;
  }

  lemma MarkerLinked(pol: Policy, meta: Meta, w: World, s: State, now: int, request: Request, tracker: Tracker)
    requires Linked(meta, w, s) && s.running && !s.ended && w.clock <= now
    requires WellFormed(pol, request) && PrintableText(request.notes, 512)
    requires WithinDuration(MarkerEvent(meta.startedAt, now, request), meta.duration)
    requires StepAttempt(pol, s.tracker, s.probes, |w.log|, Key(request.id, request.attempt), PhaseText(request.phase))
          == Ok(tracker)
    ensures var e := MarkerEvent(meta.startedAt, now, request);
            var step := Step(pol, meta, s, |w.log|, e);
            step.Ok? && Linked(meta, w.(log := w.log + [e], clock := now), step.value)
  {
    var e := MarkerEvent(meta.startedAt, now, request);
    TimingAccepts(meta, w, s, now, e);
    MarkerStep(pol, meta, s, |w.log|, now, request, tracker);
    SequencedKept(s.probes, w.log, e);
  }

  lemma MarkerAccepted(pol: Policy, meta: Meta, w: World, now: int, request: Request, e: Event)
    requires pol.Valid() && Good(pol, meta, w) && !w.finished && w.clock <= now
    requires Mark(pol, w.log, w.startedAt, now, request) == Some(e) && Clean(meta.duration, w.log + [e])
    ensures Good(pol, meta, w.(log := w.log + [e], clock := now))
  {
    var s := Replay(pol, meta, w.log).value;
    assert e == MarkerEvent(meta.startedAt, now, request);
    assert WithinDuration(e, meta.duration) && PrintableNotes(e) by {
      assert e.HasExactly(ScenarioFields);
      CleanPrefix(meta.duration, w.log, e);
    }
    MarkerSimulation.AdmissionAgrees(pol, meta, w.log, request);
    var attempt := StepAttempt(pol, s.tracker, s.probes, |w.log|,
                               Key(request.id, request.attempt), PhaseText(request.phase));
    MarkerLinked(pol, meta, w, s, now, request, attempt.value);
    GoodAppend(pol, meta, w, e, w.(log := w.log + [e], clock := now));
  }

  lemma FinishAccepted(pol: Policy, meta: Meta, w: World, s: State, now: int)
    requires Linked(meta, w, s) && s.running && !s.ended && w.clock <= now
    requires meta.endedAt == meta.startedAt + meta.duration * SECOND
    ensures var e := EndEvent(meta.startedAt, meta.duration);
            && Step(pol, meta, s, |w.log|, e).Ok?
            && Linked(meta, w.(log := w.log + [e], clock := now, finished := true),
                      Step(pol, meta, s, |w.log|, e).value)
  {
    var e := EndEvent(meta.startedAt, meta.duration);
    assert e.HasExactly(EndFields);
    ElapsedGrows(meta.startedAt, w.clock, now);
    SequencedKept(s.probes, w.log, e);
  }

  lemma StartAccepted(pol: Policy, meta: Meta, w: World, s: State, now: int)
    requires Linked(meta, w, s) && !s.running && w.clock <= now && meta.startedAt == WholeSecond(now)
    ensures var e := StartEvent(CampaignStart, WholeSecond(now));
            && Step(pol, meta, s, |w.log|, e).Ok?
            && Linked(meta, w.(log := w.log + [e], clock := now, startedAt := Some(WholeSecond(now))),
                      Step(pol, meta, s, |w.log|, e).value)
  {
    var e := StartEvent(CampaignStart, WholeSecond(now));
    assert e.HasExactly(StartFields);
    assert s.previousAt.value <= WholeSecond(now);
    SequencedKept(s.probes, w.log, e);
  }

  lemma LinkedLater(meta: Meta, w: World, s: State, now: int, closed: bool)
    requires Linked(meta, w, s) && w.clock <= now
    ensures Linked(meta, w.(clock := now, closed := closed), s)
  {
    if s.running { ElapsedGrows(meta.startedAt, w.clock, now); }
  }

  // Once the campaign has ended, no further record leaves the log clean.
  lemma NothingCleanAfterEnd(pol: Policy, meta: Meta, log: seq<Event>, e: Event)
    requires Replay(pol, meta, log).Ok? && Replay(pol, meta, log).value.ended
    ensures !Clean(meta.duration, log + [e])
  {
    ReplayShaped(pol, meta, log);
    assert (log + [e])[|log| - 1].event == Literal(CampaignEnd);
  }

  // The metadata the runner writes for this world.
  ghost predicate Describes(meta: Meta, w: World) {
    && (w.startedAt.Some? ==> w.startedAt == Some(meta.startedAt))
    && meta.endedAt == meta.startedAt + meta.duration * SECOND
  }

  // A probe line that is logged is logged as a probe record.
  lemma ProbeLineLogged(pol: Policy, duration: nat, w: World, action: Action)
    requires action.deed.PassedLine? || action.deed.FailedLine?
    requires Execute(pol, duration, w, action).log != w.log
    ensures var w' := Execute(pol, duration, w, action);
            && w.startedAt.Some? && !w.finished && w.clock <= w'.clock
            && w'.log == w.log + [w'.log[|w.log|]] && w' == w.(log := w'.log, clock := w'.clock)
            && (w.startedAt.value % SECOND == 0 && w.startedAt.value <= w'.clock ==>
                  ProbeRecord(w'.log[|w.log|], w.startedAt.value, w'.clock, action.deed.kind))
  {
    hide Mark;
    var w' := Execute(pol, duration, w, action);
    if w.startedAt.value % SECOND == 0 && w.startedAt.value <= w'.clock {
      StampMatchesElapsed(w.startedAt.value, w'.clock);
    }
  }

  lemma ProbeLineGood(pol: Policy, meta: Meta, w: World, action: Action)
    requires Good(pol, meta, w) && (action.deed.PassedLine? || action.deed.FailedLine?)
    requires var w' := Execute(pol, meta.duration, w, action);
             w'.log != w.log && Clean(meta.duration, w'.log)
    ensures Good(pol, meta, Execute(pol, meta.duration, w, action))
  {
    hide Execute, Step, Clean, ProbeRecord, Replay;
    var w' := Execute(pol, meta.duration, w, action);
    ProbeLineLogged(pol, meta.duration, w, action);
    var e := w'.log[|w.log|];
    ProbeAccepted(pol, meta, w, Replay(pol, meta, w.log).value, w'.clock, e, action.deed.kind);
    GoodAppend(pol, meta, w, e, w');
  }

  lemma MarkerGood(pol: Policy, meta: Meta, w: World, action: Action)
    requires pol.Valid() && Good(pol, meta, w) && action.deed.Invoke?
    requires var w' := Execute(pol, meta.duration, w, action);
             w'.log != w.log && Clean(meta.duration, w'.log)
    ensures Good(pol, meta, Execute(pol, meta.duration, w, action))
  {
    var w' := Execute(pol, meta.duration, w, action);
    var e := Mark(pol, w.log, w.startedAt, w'.clock, action.deed.request).value;
    assert w'.log == w.log + [e];
    if w.finished { NothingCleanAfterEnd(pol, meta, w.log, e); }
    MarkerAccepted(pol, meta, w, w'.clock, action.deed.request, e);
  }

  lemma RunnerGood(pol: Policy, meta: Meta, w: World, action: Action)
    requires Good(pol, meta, w) && (action.deed.FirstSample? || action.deed.Finish? || action.deed.Crash?)
    requires var w' := Execute(pol, meta.duration, w, action);
             w'.log != w.log && Describes(meta, w') && Clean(meta.duration, w'.log)
    ensures Good(pol, meta, Execute(pol, meta.duration, w, action))
  {
    var w' := Execute(pol, meta.duration, w, action);
    var e := w'.log[|w.log|];
    assert w'.log == w.log + [e];
    if action.deed.Crash? {
      CleanPrefix(meta.duration, w.log, e);
    } else {
      if action.deed.FirstSample? {
        StartAccepted(pol, meta, w, Replay(pol, meta, w.log).value, w'.clock);
      } else {
        FinishAccepted(pol, meta, w, Replay(pol, meta, w.log).value, w'.clock);
      }
      GoodAppend(pol, meta, w, e, w');
    }
  }

  lemma OpenGood(pol: Policy, meta: Meta, openedAt: int)
    ensures Good(pol, meta, Open(openedAt))
  {
    var e := StartEvent(BuildStart, WholeSecond(openedAt));
    assert e.HasExactly(StartFields);
    assert Open(openedAt).log[..0] == [];
  }

  // Executing an action appends at most one event and never moves the start.
  lemma ExecuteAppends(pol: Policy, duration: nat, w: World, action: Action)
    ensures var w' := Execute(pol, duration, w, action);
            && w.clock <= w'.clock
            && (w.startedAt.Some? ==> w'.startedAt == w.startedAt)
            && (w'.log == w.log ==> w' == w.(clock := w'.clock, closed := w'.closed))
            && (w'.log != w.log ==> !action.deed.Close? && w'.log == w.log + [w'.log[|w.log|]])
  {
  }

  lemma ExecuteGood(pol: Policy, meta: Meta, w: World, action: Action)
    requires pol.Valid() && Good(pol, meta, w)
    requires var w' := Execute(pol, meta.duration, w, action); Describes(meta, w') && Clean(meta.duration, w'.log)
    ensures Good(pol, meta, Execute(pol, meta.duration, w, action))
  {
    var w' := Execute(pol, meta.duration, w, action);
    ExecuteAppends(pol, meta.duration, w, action);
    if w'.log == w.log {
      LinkedLater(meta, w, Replay(pol, meta, w.log).value, w'.clock, w'.closed);
    } else if action.deed.Invoke? {
      MarkerGood(pol, meta, w, action);
    } else if action.deed.PassedLine? || action.deed.FailedLine? {
      ProbeLineGood(pol, meta, w, action);
    } else {
      RunnerGood(pol, meta, w, action);
    }
  }

  lemma {:induction false} CleanRunAccepted(pol: Policy, meta: Meta, openedAt: int, actions: seq<Action>)
    requires pol.Valid()
    requires var w := Run(pol, meta.duration, openedAt, actions); Describes(meta, w) && Clean(meta.duration, w.log)
    ensures Good(pol, meta, Run(pol, meta.duration, openedAt, actions))
  {
    var w' := Run(pol, meta.duration, openedAt, actions);
    if actions == [] {
      OpenGood(pol, meta, openedAt);
    } else {
      var action := actions[|actions| - 1];
      var w := Run(pol, meta.duration, openedAt, actions[..|actions| - 1]);
      ExecuteAppends(pol, meta.duration, w, action);
      if w'.log != w.log { CleanPrefix(meta.duration, w.log, w'.log[|w.log|]); }
      CleanRunAccepted(pol, meta, openedAt, actions[..|actions| - 1]);
      hide Execute, Clean, Good;
      ExecuteGood(pol, meta, w, action);
    }
  }

  // ---- Accepted timelines are clean

  ghost predicate SequencesBounded(p: Probes, log: seq<Event>) {
    forall i, kind :: ProbeAt(log, i, kind, PassedWord) ==>
      log[i].sequence.Int? && log[i].sequence.n <= Lookup(p.sequences, kind, 0)
  }

  // A step raises the number of its kind at a passing probe, and no other.
  lemma SequencesOfStep(pol: Policy, meta: Meta, s: State, index: nat, e: Event, kind: Kind)
    requires Step(pol, meta, s, index, e).Ok?
    ensures var was, now := Lookup(s.probes.sequences, kind, 0),
                           Lookup(Step(pol, meta, s, index, e).value.probes.sequences, kind, 0);
            && was <= now
            && (ProbeAt([e], 0, kind, PassedWord) ==> e.sequence.Int? && was < e.sequence.n == now)
  {
  }

  lemma SequencesStep(pol: Policy, meta: Meta, s: State, log: seq<Event>, e: Event, s': State)
    requires SequencesBounded(s.probes, log) && RisingSequences(log) && Step(pol, meta, s, |log|, e) == Ok(s')
    ensures SequencesBounded(s'.probes, log + [e]) && RisingSequences(log + [e])
  {
    forall kind: Kind
      ensures var was, now := Lookup(s.probes.sequences, kind, 0), Lookup(s'.probes.sequences, kind, 0);
              && was <= now
              && (ProbeAt([e], 0, kind, PassedWord) ==> e.sequence.Int? && was < e.sequence.n == now)
    {
      SequencesOfStep(pol, meta, s, |log|, e, kind);
    }
    var long := log + [e];
    assert forall i, kind :: 0 <= i < |log| && ProbeAt(long, i, kind, PassedWord) ==> ProbeAt(log, i, kind, PassedWord);
    assert forall kind :: ProbeAt(long, |log|, kind, PassedWord) ==> ProbeAt([e], 0, kind, PassedWord);
    hide Step, Lookup;
  }

  lemma RecordChecks(pol: Policy, meta: Meta, s: State, index: nat, e: Event)
    requires Step(pol, meta, s, index, e).Ok?
    ensures !e.others
    ensures Inside(e) ==> WithinDuration(e, meta.duration)
    ensures IsScenario(e) ==> PrintableNotes(e)
  {
    assert e.Has(OtherField) == e.others;
  }

  lemma CleanStep(duration: nat, log: seq<Event>, e: Event)
    requires Clean(duration, log) && RisingSequences(log + [e]) && !e.others
    requires Inside(e) ==> WithinDuration(e, duration)
    requires IsScenario(e) ==> PrintableNotes(e)
    requires forall i :: 0 <= i < |log| ==> log[i].event != Literal(CampaignEnd)
    ensures Clean(duration, log + [e])
  {
  }

  lemma {:induction false} AcceptedIsClean(pol: Policy, meta: Meta, log: seq<Event>)
    requires Replay(pol, meta, log).Ok?
    ensures Clean(meta.duration, log)
    ensures SequencesBounded(Replay(pol, meta, log).value.probes, log)
  {
    if log != [] {
      var last := |log| - 1;
      var before, e := log[..last], log[last];
      var s := Replay(pol, meta, before).value;
      AcceptedIsClean(pol, meta, before);
      assert log == before + [e];
      SequencesStep(pol, meta, s, before, e, Replay(pol, meta, log).value);
      RecordChecks(pol, meta, s, last, e);
      ReplayShaped(pol, meta, log);
      assert forall i :: 0 <= i < last ==> before[i] == log[i];
      CleanStep(meta.duration, before, e);
    }
  }

  /** For every interleaving, the builder's loop accepts the log exactly when the run was clean: no
      ordering, attempt-state, evidence or elapsed-versus-timestamp error can arise otherwise. */
  lemma RunAcceptedIffClean(pol: Policy, meta: Meta, openedAt: int, actions: seq<Action>)
    requires pol.Valid() && Describes(meta, Run(pol, meta.duration, openedAt, actions))
    ensures var log := Run(pol, meta.duration, openedAt, actions).log;
            Replay(pol, meta, log).Ok? <==> Clean(meta.duration, log)
  {
    var log := Run(pol, meta.duration, openedAt, actions).log;
    if Clean(meta.duration, log) { CleanRunAccepted(pol, meta, openedAt, actions); }
    if Replay(pol, meta, log).Ok? { AcceptedIsClean(pol, meta, log); }
  }
}
