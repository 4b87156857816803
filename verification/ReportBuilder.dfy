/**
 The report builder: it replays a finished timeline event by event, keeping
 dictionaries of attempt states, counters and latest probe indices, and turns
 an accepted timeline into one passed entry per required scenario.
 */
module ReportBuilder {
  import opened Options
  import opened Timeline

  datatype Reason =
    | FieldSet | Metadata | OutOfOrder | OutsideCampaign | Timestamp | NotMonotonic | Unsupported
    | ProbeResult | ProbeSequence | ProbeErrorCode
    | ElapsedValue | ElapsedRange | ElapsedMismatch
    | ScenarioText | UnknownScenario | AttemptNumber | NotesText
    | DuplicateBegin | NotActive | MissingEvidence | InvalidPhase
    | MarkerCount | Incomplete | TooFewPasses

  datatype Result<+T> = Ok(value: T) | Err(reason: Reason) {
    predicate IsFailure() { Err? }
    function PropagateFailure<U>(): Result<U> requires Err? { Err(reason) }
    function Extract(): T requires Ok? { value }
  }

  /** What apple-run.json says of the campaign: instants in microseconds, duration in seconds. */
  datatype Meta = Meta(startedAt: int, endedAt: int, duration: nat)

  /** The dictionaries about scenario attempts. */
  datatype Tracker = Tracker(
    attempts: map<Key, AttemptState>, begins: map<Key, int>, passed: map<string, nat>, failed: map<string, nat>)

  /** The dictionaries about probes: index of the latest of each kind, latest passing sequence number. */
  datatype Probes = Probes(latestPassed: map<Kind, int>, latestFailed: map<Kind, int>, sequences: map<Kind, int>)

  datatype State = State(
    buildStarts: nat, campaignStarts: nat, campaignEnds: nat, tracker: Tracker, probes: Probes,
    previousElapsed: int, previousAt: Option<int>, running: bool, ended: bool)

  function ZeroCounts(pol: Policy): map<string, nat> {
    map i | 0 <= i < |pol.required| :: pol.required[i].0 := 0
  }

  function Initial(pol: Policy): State {
    State(0, 0, 0, Tracker(map[], map[], ZeroCounts(pol), ZeroCounts(pol)), Probes(map[], map[], map[]),
          -1, None, false, false)
  }

  function ParseUTC(j: Json): Result<int> {
    if j.Stamp? then Ok(j.micros) else Err(Timestamp)
  }

  function RequireInt(j: Json, minimum: int, reason: Reason): Result<int> {
    if j.Int? && j.n >= minimum then Ok(j.n) else Err(reason)
  }

  predicate OffByMoreThanTwoSeconds(at: int, expected: int) {
    at - expected > 2 * SECOND || expected - at > 2 * SECOND
  }

  predicate IsProbe(e: Event) {
    e.event == Literal(Probe) && (e.HasExactly(PassedProbeFields) || e.HasExactly(FailedProbeFields))
  }

  predicate IsScenario(e: Event) {
    e.event == Literal(Scenario) && e.HasExactly(ScenarioFields)
  }

  // The elapsed seconds and the instant of a probe or a scenario marker.
  function Timing(meta: Meta, previousElapsed: int, e: Event): Result<(int, int)> {
    var elapsed :- RequireInt(e.elapsed, 0, ElapsedValue);
    if elapsed < previousElapsed || elapsed > meta.duration then Err(ElapsedRange) else
    var at :- ParseUTC(e.at);
    if OffByMoreThanTwoSeconds(at, meta.startedAt + elapsed * SECOND) then Err(ElapsedMismatch) else
    Ok((elapsed, at))
  }

  function StepBuildStart(s: State, e: Event): Result<(State, int)> {
    if !e.HasExactly(StartFields) then Err(FieldSet) else
    var at :- ParseUTC(e.at);
    if s.running || s.ended then Err(OutOfOrder) else
    Ok((s.(buildStarts := s.buildStarts + 1), at))
  }

  function StepCampaignStart(meta: Meta, s: State, e: Event): Result<(State, int)> {
    if !e.HasExactly(StartFields) || e.at != Stamp(meta.startedAt) then Err(Metadata) else
    if s.buildStarts != 1 || s.running || s.ended then Err(OutOfOrder) else
    var at :- ParseUTC(e.at);
    Ok((s.(campaignStarts := s.campaignStarts + 1, running := true), at))
  }

  function StepCampaignEnd(meta: Meta, s: State, e: Event): Result<(State, int)> {
    if !e.HasExactly(EndFields) || e.result != Literal(PassedWord) then Err(FieldSet) else
    if e.at != Stamp(meta.endedAt) || !EqualsInt(e.elapsed, meta.duration) then Err(Metadata) else
    if !s.running || s.ended then Err(OutOfOrder) else
    var at :- ParseUTC(e.at);
    Ok((s.(campaignEnds := s.campaignEnds + 1, ended := true), at))
  }

  // The kind-dependent part of a probe event.
  function CountProbe(p: Probes, index: nat, kind: Kind, e: Event): Result<Probes> {
    if e.result == Literal(PassedWord) then
      if !e.HasExactly(PassedProbeFields) then Err(FieldSet) else
      var sequence :- RequireInt(e.sequence, 1, ProbeSequence);
      if sequence <= Lookup(p.sequences, kind, 0) then Err(ProbeSequence) else
      Ok(p.(sequences := p.sequences[kind := sequence], latestPassed := p.latestPassed[kind := index]))
    else
      if !e.HasExactly(FailedProbeFields) then Err(FieldSet) else
      if !CodeString(e.errorCode) then Err(ProbeErrorCode) else
      Ok(p.(latestFailed := p.latestFailed[kind := index]))
  }

  function StepProbe(meta: Meta, s: State, index: nat, e: Event): Result<(State, int)> {
    if !s.running || s.ended then Err(OutsideCampaign) else
    var kind := KindOf(e.kind);
    if kind.None? || (e.result != Literal(PassedWord) && e.result != Literal(FailedWord)) then Err(ProbeResult) else
    var probes :- CountProbe(s.probes, index, kind.value, e);
    var timing :- Timing(meta, s.previousElapsed, e);
    Ok((s.(probes := probes, previousElapsed := timing.0), timing.1))
  }

  // No probe of the kind in `latest` came after index `since`.
  predicate NoneAfter(latest: map<Kind, int>, since: int) {
    Lookup(latest, Http, -1) <= since || Lookup(latest, Udp, -1) <= since
  }

  predicate NotRecovered(latestPassed: map<Kind, int>, latestFailed: map<Kind, int>) {
    || Lookup(latestPassed, Http, -1) <= Lookup(latestFailed, Http, -1)
    || Lookup(latestPassed, Udp, -1) <= Lookup(latestFailed, Udp, -1)
  }

  predicate EvidenceMissing(pol: Policy, p: Probes, id: string, begin: int) {
    || (id in pol.probeOracles && NoneAfter(p.latestPassed, begin))
    || (id in pol.outageOracles && (NoneAfter(p.latestFailed, begin) || NotRecovered(p.latestPassed, p.latestFailed)))
  }

  function Bump(counts: map<string, nat>, id: string): map<string, nat> {
    counts[id := if id in counts then counts[id] + 1 else 1]
  }

  // The attempt-state and evidence part of a scenario marker.
  function StepAttempt(pol: Policy, t: Tracker, p: Probes, index: nat, key: Key, phase: Json): Result<Tracker> {
    var state := Find(t.attempts, key);
    match PhaseOf(phase)
    case Some(Begin) =>
      if state.Some? then Err(DuplicateBegin)
      else Ok(t.(attempts := t.attempts[key := Running], begins := t.begins[key := index]))
    case Some(Note) =>
      if state != Some(Running) then Err(NotActive) else Ok(t)
    case Some(Passed) =>
      if state != Some(Running) then Err(NotActive) else
      if EvidenceMissing(pol, p, key.id, Lookup(t.begins, key, -1)) then Err(MissingEvidence) else
      Ok(t.(attempts := t.attempts[key := Ended(true)], passed := Bump(t.passed, key.id)))
    case Some(Failed) =>
      if state != Some(Running) then Err(NotActive) else
      Ok(t.(attempts := t.attempts[key := Ended(false)], failed := Bump(t.failed, key.id)))
    case None => Err(InvalidPhase)
  }

  function StepScenario(pol: Policy, meta: Meta, s: State, index: nat, e: Event): Result<(State, int)> {
    if !s.running || s.ended then Err(OutsideCampaign) else
    if !PrintableString(e.scenarioId, 128) then Err(ScenarioText) else
    if !e.scenarioId.Text? || !pol.Requires(e.scenarioId.s) then Err(UnknownScenario) else
    var attempt :- RequireInt(e.attempt, 1, AttemptNumber);
    var timing :- Timing(meta, s.previousElapsed, e);
    if !PrintableString(e.notes, 512) then Err(NotesText) else
    var tracker :- StepAttempt(pol, s.tracker, s.probes, index, Key(e.scenarioId.s, attempt), e.phase);
    Ok((s.(tracker := tracker, previousElapsed := timing.0), timing.1))
  }

  function Dispatch(pol: Policy, meta: Meta, s: State, index: nat, e: Event): Result<(State, int)> {
    if e.event == Literal(BuildStart) then StepBuildStart(s, e)
    else if e.event == Literal(CampaignStart) then StepCampaignStart(meta, s, e)
    else if e.event == Literal(CampaignEnd) then StepCampaignEnd(meta, s, e)
    else if IsProbe(e) then StepProbe(meta, s, index, e)
    else if IsScenario(e) then StepScenario(pol, meta, s, index, e)
    else Err(Unsupported)
  }

  /** One turn of the builder's loop. */
  function Step(pol: Policy, meta: Meta, s: State, index: nat, e: Event): Result<State> {
    var next :- Dispatch(pol, meta, s, index, e);
    if s.previousAt.Some? && next.1 < s.previousAt.value then Err(NotMonotonic) else
    Ok(next.0.(previousAt := Some(next.1)))
  }

  /** The loop over a whole timeline. */
  function Replay(pol: Policy, meta: Meta, events: seq<Event>): Result<State> {
    if events == [] then Ok(Initial(pol)) else
    var last := |events| - 1;
    var s :- Replay(pol, meta, events[..last]);
    Step(pol, meta, s, last, events[last])
  }

  lemma {:induction false} ErrorPersists(pol: Policy, meta: Meta, events: seq<Event>, cut: nat)
    requires cut <= |events|
    ensures Replay(pol, meta, events[..cut]).Err? ==> Replay(pol, meta, events) == Replay(pol, meta, events[..cut])
    decreases |events|
  {
    if cut == |events| {
      assert events[..cut] == events;
    } else {
      var last := |events| - 1;
      assert events[..last][..cut] == events[..cut];
      ErrorPersists(pol, meta, events[..last], cut);
    }
  }

  /** One entry of the report: a scenario with its passed and failed attempts. */
  datatype Entry = Entry(id: string, passed: nat, failed: nat)

  function CountOf(counts: map<string, nat>, id: string): nat {
    if id in counts then counts[id] else 0
  }

  function Entries(required: seq<(string, nat)>, s: State): Result<seq<Entry>> {
    if required == [] then Ok([]) else
    var last := |required| - 1;
    var rest :- Entries(required[..last], s);
    var id := required[last].0;
    if CountOf(s.tracker.passed, id) < required[last].1 then Err(TooFewPasses) else
    Ok(rest + [Entry(id, CountOf(s.tracker.passed, id), CountOf(s.tracker.failed, id))])
  }

  function Finish(pol: Policy, s: State): Result<seq<Entry>> {
    if s.buildStarts != 1 || s.campaignStarts != 1 || s.campaignEnds != 1 then Err(MarkerCount) else
    if exists key :: key in s.tracker.attempts && s.tracker.attempts[key] == Running then Err(Incomplete) else
    Entries(pol.required, s)
  }

  /** build_scenarios as a function of its arguments. */
  function Build(pol: Policy, meta: Meta, events: seq<Event>): Result<seq<Entry>> {
    var s :- Replay(pol, meta, events);
    Finish(pol, s)
  }

  /** The variables of the builder's loop. Each method handles one kind of event and returns
      the event's instant. */
  class Replayer {
    const pol: Policy
    const meta: Meta
    var buildStarts: nat
    var campaignStarts: nat
    var campaignEnds: nat
    var attempts: map<Key, AttemptState>
    var begins: map<Key, int>
    var passed: map<string, nat>
    var failed: map<string, nat>
    var latestPassed: map<Kind, int>
    var latestFailed: map<Kind, int>
    var sequences: map<Kind, int>
    var previousElapsed: int
    var previousAt: Option<int>
    var running: bool
    var ended: bool

    ghost function Tracking(): Tracker
      reads this
    {
      Tracker(attempts, begins, passed, failed)
    }

    ghost function Probing(): Probes
      reads this
    {
      Probes(latestPassed, latestFailed, sequences)
    }

    ghost function View(): State
      reads this
    {
      State(buildStarts, campaignStarts, campaignEnds, Tracking(), Probing(),
            previousElapsed, previousAt, running, ended)
    }

    // The outcome of a handler against the step it implements.
    ghost predicate Implements(r: Result<int>, step: Result<(State, int)>)
      reads this
    {
      if r.Ok? then step == Ok((View(), r.value)) else step == Err(r.reason)
    }

    constructor (pol: Policy, meta: Meta)
      ensures this.pol == pol && this.meta == meta && View() == Initial(pol)
    {
      this.pol, this.meta := pol, meta;
      buildStarts, campaignStarts, campaignEnds := 0, 0, 0;
      attempts, begins := map[], map[];
      passed, failed := ZeroCounts(pol), ZeroCounts(pol);
      latestPassed, latestFailed, sequences := map[], map[], map[];
      previousElapsed, previousAt := -1, None;
      running, ended := false, false;
    }

    method OnCampaignEvent(event: Event) returns (r: Result<int>)
      requires event.event in {Literal(BuildStart), Literal(CampaignStart), Literal(CampaignEnd)}
      modifies this
      ensures Implements(r, Dispatch(pol, meta, old(View()), 0, event))
    {
      if event.event == Literal(BuildStart) {
        if !event.HasExactly(StartFields) { return Err(FieldSet); }
        if !event.at.Stamp? { return Err(Timestamp); }
        if running || ended { return Err(OutOfOrder); }
        buildStarts := buildStarts + 1;
      } else if event.event == Literal(CampaignStart) {
        if !event.HasExactly(StartFields) || event.at != Stamp(meta.startedAt) { return Err(Metadata); }
        if buildStarts != 1 || running || ended { return Err(OutOfOrder); }
        campaignStarts := campaignStarts + 1;
        running := true;
      } else {
        if !event.HasExactly(EndFields) || event.result != Literal(PassedWord) { return Err(FieldSet); }
        if event.at != Stamp(meta.endedAt) || !EqualsInt(event.elapsed, meta.duration) { return Err(Metadata); }
        if !running || ended { return Err(OutOfOrder); }
        campaignEnds := campaignEnds + 1;
        ended := true;
      }
      return Ok(event.at.micros);
    }

    // The elapsed-time and timestamp checks of probes and scenario markers.
    method CheckTiming(event: Event) returns (r: Result<int>)
      modifies this`previousElapsed
      ensures match Timing(meta, old(previousElapsed), event)
              case Err(reason) => r == Err(reason)
              case Ok(timing) => r == Ok(timing.1) && previousElapsed == timing.0
    {
      if !event.elapsed.Int? || event.elapsed.n < 0 { return Err(ElapsedValue); }
      if event.elapsed.n < previousElapsed || event.elapsed.n > meta.duration { return Err(ElapsedRange); }
      previousElapsed := event.elapsed.n;
      if !event.at.Stamp? { return Err(Timestamp); }
      if OffByMoreThanTwoSeconds(event.at.micros, meta.startedAt + previousElapsed * SECOND) {
        return Err(ElapsedMismatch);
      }
      return Ok(event.at.micros);
    }

    method OnProbe(index: nat, event: Event) returns (r: Result<int>)
      modifies this
      ensures Implements(r, StepProbe(meta, old(View()), index, event))
    {
      if !running || ended { return Err(OutsideCampaign); }
      var kind := KindOf(event.kind);
      if kind.None? || (event.result != Literal(PassedWord) && event.result != Literal(FailedWord)) {
        return Err(ProbeResult);
      }
      if event.result == Literal(PassedWord) {
        if !event.HasExactly(PassedProbeFields) { return Err(FieldSet); }
        if !event.sequence.Int? || event.sequence.n < 1 { return Err(ProbeSequence); }
        if event.sequence.n <= Lookup(sequences, kind.value, 0) { return Err(ProbeSequence); }
        sequences := sequences[kind.value := event.sequence.n];
        latestPassed := latestPassed[kind.value := index];
      } else {
        if !event.HasExactly(FailedProbeFields) { return Err(FieldSet); }
        if !CodeString(event.errorCode) { return Err(ProbeErrorCode); }
        latestFailed := latestFailed[kind.value := index];
      }
      r := CheckTiming(event);
    }

    method OnPhase(index: nat, key: Key, phase: Json) returns (r: Result<()>)
      modifies this`attempts, this`begins, this`passed, this`failed
      ensures match StepAttempt(pol, old(Tracking()), Probing(), index, key, phase)
              case Err(reason) => r == Err(reason)
              case Ok(t) => r == Ok(()) && Tracking() == t
    {
      var state := Find(attempts, key);
      match PhaseOf(phase) {
        case Some(Begin) =>
          if state.Some? { return Err(DuplicateBegin); }
          attempts := attempts[key := Running];
          begins := begins[key := index];
        case Some(Note) =>
          if state != Some(Running) { return Err(NotActive); }
        case Some(Passed) =>
          if state != Some(Running) { return Err(NotActive); }
          var begin := Lookup(begins, key, -1);
          if key.id in pol.probeOracles && NoneAfter(latestPassed, begin) { return Err(MissingEvidence); }
          if key.id in pol.outageOracles {
            if NoneAfter(latestFailed, begin) { return Err(MissingEvidence); }
            if NotRecovered(latestPassed, latestFailed) { return Err(MissingEvidence); }
          }
          passed := Bump(passed, key.id);
          attempts := attempts[key := Ended(true)];
        case Some(Failed) =>
          if state != Some(Running) { return Err(NotActive); }
          failed := Bump(failed, key.id);
          attempts := attempts[key := Ended(false)];
        case None => return Err(InvalidPhase);
      }
      return Ok(());
    }

    method OnScenario(index: nat, event: Event) returns (r: Result<int>)
      modifies this
      ensures Implements(r, StepScenario(pol, meta, old(View()), index, event))
    {
      if !running || ended { return Err(OutsideCampaign); }
      if !PrintableString(event.scenarioId, 128) { return Err(ScenarioText); }
      if !event.scenarioId.Text? || !pol.Requires(event.scenarioId.s) { return Err(UnknownScenario); }
      if !event.attempt.Int? || event.attempt.n < 1 { return Err(AttemptNumber); }
      r := CheckTiming(event);
      if r.Err? { return r; }
      if !PrintableString(event.notes, 512) { return Err(NotesText); }
      var outcome := OnPhase(index, Key(event.scenarioId.s, event.attempt.n), event.phase);
      if outcome.Err? { return Err(outcome.reason); }
    }

    // One turn of the loop.
    method OnEvent(index: nat, event: Event) returns (r: Result<()>)
      modifies this
      ensures match Step(pol, meta, old(View()), index, event)
              case Err(reason) => r == Err(reason)
              case Ok(s) => r == Ok(()) && View() == s
    {
      var at: Result<int>;
      if event.event in {Literal(BuildStart), Literal(CampaignStart), Literal(CampaignEnd)} {
        at := OnCampaignEvent(event);
      } else if IsProbe(event) {
        at := OnProbe(index, event);
      } else if IsScenario(event) {
        at := OnScenario(index, event);
      } else {
        return Err(Unsupported);
      }
      if at.Err? { return Err(at.reason); }
      if previousAt.Some? && at.value < previousAt.value { return Err(NotMonotonic); }
      previousAt := Some(at.value);
      return Ok(());
    }
  }

  method BuildScenarios(pol: Policy, meta: Meta, events: seq<Event>) returns (r: Result<seq<Entry>>)
    ensures r == Build(pol, meta, events)
  {
    var replayer := new Replayer(pol, meta);
    var index := 0;
    while index < |events|
      invariant 0 <= index <= |events|
      invariant replayer.pol == pol && replayer.meta == meta && fresh(replayer)
      invariant Replay(pol, meta, events[..index]) == Ok(replayer.View())
    {
      assert events[..index + 1][..index] == events[..index];
      ErrorPersists(pol, meta, events, index + 1);
      var outcome := replayer.OnEvent(index, events[index]);
      if outcome.Err? { return Err(outcome.reason); }
      index := index + 1;
    }
    assert events[..index] == events;
    if replayer.buildStarts != 1 || replayer.campaignStarts != 1 || replayer.campaignEnds != 1 {
      return Err(MarkerCount);
    }
    if exists key :: key in replayer.attempts && replayer.attempts[key] == Running { return Err(Incomplete); }
    r := Collect(pol, replayer.View(), replayer.passed, replayer.failed);
  }

  // The final loop over the required scenarios.
  method Collect(pol: Policy, ghost s: State, passed: map<string, nat>, failed: map<string, nat>)
    returns (r: Result<seq<Entry>>)
    requires s.tracker.passed == passed && s.tracker.failed == failed
    ensures r == Entries(pol.required, s)
  {
    var entries := [];
    var i := 0;
    while i < |pol.required|
      invariant 0 <= i <= |pol.required|
      invariant Entries(pol.required[..i], s) == Ok(entries)
    {
      assert pol.required[..i + 1][..i] == pol.required[..i];
      var id := pol.required[i].0;
      if CountOf(passed, id) < pol.required[i].1 {
        EntriesErrorPersists(pol.required, s, i + 1);
        return Err(TooFewPasses);
      }
      entries := entries + [Entry(id, CountOf(passed, id), CountOf(failed, id))];
      i := i + 1;
    }
    assert pol.required[..i] == pol.required;
    return Ok(entries);
  }

  lemma {:induction false} EntriesErrorPersists(required: seq<(string, nat)>, s: State, cut: nat)
    requires cut <= |required|
    requires Entries(required[..cut], s).Err?
    ensures Entries(required, s) == Entries(required[..cut], s)
    decreases |required|
  {
    if cut == |required| {
      assert required[..cut] == required;
    } else {
      var last := |required| - 1;
      assert required[..last][..cut] == required[..cut];
      EntriesErrorPersists(required[..last], s, cut);
    }
  }
}
