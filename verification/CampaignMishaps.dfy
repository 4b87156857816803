/**
 Runs of the tools, move by move, in which a log the builder accepted becomes
 one it refuses: a marker after the campaign end, a note it does not find
 printable, a line too long to load, two begins that overlap, and a marker
 overtaken by a probe.
 */
module CampaignMishaps {
  import opened Options
  import opened Timeline
  import opened ReportBuilder
  import opened TransitionMarker
  import opened AcceptedTimelines
  import opened CampaignRun
  import opened CampaignOutcomes
  import opened OverlappingMarkers
  import opened TimelineLines

  /** A begin marker of a required scenario, in a campaign that starts on a whole second. */
  ghost predicate Setting(pol: Policy, meta: Meta, request: Request) {
    && pol.Valid() && WellFormed(pol, request) && request.phase == Begin
    && WholeSecond(meta.startedAt) == meta.startedAt && meta.endedAt == meta.startedAt + meta.duration * SECOND
  }

  // There is such a setting: one scenario, its first attempt.
  const ONE_SCENARIO := Policy([("a", 1)], {}, {})

  lemma SettingExists(duration: nat, notes: string)
    requires NotesAllowed(notes)
    ensures Setting(ONE_SCENARIO, Meta(0, duration * SECOND, duration), Request("a", 1, Begin, notes))
  {
    assert ONE_SCENARIO.required[0].0 == "a";
    assert WholeSecond(0) == 0;
  }

  lemma {:induction false} UnknownAttempt(events: seq<Event>, id: string, attempt: int)
    requires forall i :: 0 <= i < |events| ==> events[i].event != Literal(Scenario) && !Unhashable(events[i])
    ensures Rescan(events, id, attempt).Some? && Rescan(events, id, attempt).value.state.None?
  {
    if events != [] {
      UnknownAttempt(events[..|events| - 1], id, attempt);
    }
  }

  lemma BeginPasses(pol: Policy, meta: Meta, log: seq<Event>, request: Request)
    requires Setting(pol, meta, request)
    requires forall i :: 0 <= i < |log| ==> log[i].event != Literal(Scenario) && !Unhashable(log[i])
    ensures Passes(pol, log, request)
    ensures forall at ::
              Mark(pol, log, Some(meta.startedAt), at, request) == Some(MarkerEvent(meta.startedAt, at, request))
  {
    UnknownAttempt(log, request.id, request.attempt);
  }

  // The log once the campaign has started.
  function StartedLog(meta: Meta): seq<Event> {
    [StartEvent(BuildStart, meta.startedAt), StartEvent(CampaignStart, meta.startedAt)]
  }

  // ---- A marker after the campaign end

  function UntilEnd(): seq<Action> {
    [Action(0, FirstSample)] + [Action(0, Finish)]
  }

  lemma RunNext(pol: Policy, duration: nat, openedAt: int, actions: seq<Action>, action: Action)
    ensures Run(pol, duration, openedAt, actions + [action]) ==
            Execute(pol, duration, Run(pol, duration, openedAt, actions), action)
  {
    assert (actions + [action])[..|actions|] == actions;
  }

  lemma EndedRun(pol: Policy, meta: Meta, request: Request)
    requires Setting(pol, meta, request)
    ensures Run(pol, meta.duration, meta.startedAt, UntilEnd()) ==
            World(StartedLog(meta) + [EndEvent(meta.startedAt, meta.duration)],
                  Some(meta.startedAt), true, false, meta.startedAt)
  {
    RunNext(pol, meta.duration, meta.startedAt, [], Action(0, FirstSample));
    assert [] + [Action(0, FirstSample)] == [Action(0, FirstSample)];
    RunNext(pol, meta.duration, meta.startedAt, [Action(0, FirstSample)], Action(0, Finish));
    var first := Open(meta.startedAt);
    assert first.log + [StartEvent(CampaignStart, meta.startedAt)] == StartedLog(meta);
  }

  lemma EndedClean(meta: Meta)
    ensures Clean(meta.duration, StartedLog(meta) + [EndEvent(meta.startedAt, meta.duration)])
  {
  }

  /** A campaign runs to its end and the builder accepts its log; the marker tool is invoked before
      the state file is removed, is admitted, and the builder refuses the log. */
  lemma LateMarkerRun(pol: Policy, meta: Meta, request: Request)
    requires Setting(pol, meta, request)
    ensures var actions := UntilEnd() + [Action(0, Invoke(request))];
            var before := Run(pol, meta.duration, meta.startedAt, UntilEnd()).log;
            var after := Run(pol, meta.duration, meta.startedAt, actions).log;
            && Replay(pol, meta, before).Ok?
            && after == before + [MarkerEvent(meta.startedAt, meta.startedAt, request)]
            && Replay(pol, meta, after) == Err(OutsideCampaign)
  {
    hide Replay;
    var w := Run(pol, meta.duration, meta.startedAt, UntilEnd());
    EndedRun(pol, meta, request);
    RunNext(pol, meta.duration, meta.startedAt, UntilEnd(), Action(0, Invoke(request)));
    EndedClean(meta);
    hide Clean, Mark, Rescan, Run;
    CleanRunAccepted(pol, meta, meta.startedAt, UntilEnd());
    BeginPasses(pol, meta, w.log, request);
    LateMarkerSpoilsLog(pol, meta, w.log, w.startedAt, meta.startedAt, request);
  }

  // ---- A marker the builder cannot read

  function UntilMarker(request: Request): seq<Action> {
    [Action(0, FirstSample)] + [Action(0, Invoke(request))]
  }

  lemma MarkedRun(pol: Policy, meta: Meta, request: Request)
    requires Setting(pol, meta, request)
    ensures Run(pol, meta.duration, meta.startedAt, UntilMarker(request)) ==
            World(StartedLog(meta) + [MarkerEvent(meta.startedAt, meta.startedAt, request)],
                  Some(meta.startedAt), false, false, meta.startedAt)
  {
    RunNext(pol, meta.duration, meta.startedAt, [], Action(0, FirstSample));
    assert [] + [Action(0, FirstSample)] == [Action(0, FirstSample)];
    RunNext(pol, meta.duration, meta.startedAt, [Action(0, FirstSample)], Action(0, Invoke(request)));
    BeginPasses(pol, meta, StartedLog(meta), request);
    hide Mark, MarkerEvent;
    assert Open(meta.startedAt).log + [StartEvent(CampaignStart, meta.startedAt)] == StartedLog(meta);
  }

  lemma MarkedClean(meta: Meta, request: Request)
    requires PrintableText(request.notes, 512)
    ensures Clean(meta.duration, StartedLog(meta) + [MarkerEvent(meta.startedAt, meta.startedAt, request)])
  {
  }

  /** A campaign starts and a marker whose note is a lone DEL is admitted: the builder refuses the log. */
  lemma DeleteNoteRun(pol: Policy, meta: Meta, request: Request)
    requires Setting(pol, meta, request) && request.notes == [0x7f as char]
    ensures var log := Run(pol, meta.duration, meta.startedAt, UntilMarker(request)).log;
            && log == StartedLog(meta) + [MarkerEvent(meta.startedAt, meta.startedAt, request)]
            && Replay(pol, meta, log).Err?
  {
    hide Run, Replay, Mark;
    MarkedRun(pol, meta, request);
    BeginPasses(pol, meta, StartedLog(meta), request);
    assert !Printable(request.notes[0]);
    UnprintableNoteSpoilsLog(pol, meta, StartedLog(meta), Some(meta.startedAt), meta.startedAt, request);
  }

  // A character outside the Basic Multilingual Plane: twelve bytes in a line.
  const WIDE := '\U{1F600}'

  lemma MishapNotesAllowed()
    ensures NotesAllowed([0x7f as char]) && NotesAllowed(seq(512, _ => WIDE))
  {
  }

  /** A campaign starts and a marker with 512 such characters is admitted: the builder's loop accepts
      the log, and the tool refuses to load it. */
  lemma WideNoteRun(pol: Policy, meta: Meta, request: Request)
    requires Setting(pol, meta, request) && request.notes == seq(512, _ => WIDE)
    ensures var log := Run(pol, meta.duration, meta.startedAt, UntilMarker(request)).log;
            && log == StartedLog(meta) + [MarkerEvent(meta.startedAt, meta.startedAt, request)]
            && Clean(meta.duration, log) && Replay(pol, meta, log).Ok?
            && LineLength(log[2]) > MAX_LINE && !Loads(log)
  {
    hide Run, Replay;
    MarkedRun(pol, meta, request);
    MarkedClean(meta, request);
    CleanRunAccepted(pol, meta, meta.startedAt, UntilMarker(request));
    MarkerLineLength(meta.startedAt, meta.startedAt, request);
    WideText(request.notes);
    var log := Run(pol, meta.duration, meta.startedAt, UntilMarker(request)).log;
    assert log[2] == MarkerEvent(meta.startedAt, meta.startedAt, request);
  }

  // ---- Two begins that overlap

  lemma CrowdNext(pol: Policy, meta: Meta, moves: seq<Move>, move: Move)
    ensures RunCrowd(pol, meta.duration, meta.startedAt, moves + [move]) ==
            Proceed(pol, meta.duration, RunCrowd(pol, meta.duration, meta.startedAt, moves), move)
  {
    assert (moves + [move])[..|moves|] == moves;
  }

  // The campaign starts, and an invocation has scanned the log.
  function OneChecked(request: Request): seq<Move> {
    [Alone(Action(0, FirstSample))] + [Check(0, request)]
  }

  lemma OneWaits(pol: Policy, meta: Meta, request: Request)
    requires Setting(pol, meta, request)
    ensures RunCrowd(pol, meta.duration, meta.startedAt, OneChecked(request)) ==
            Crowd(World(StartedLog(meta), Some(meta.startedAt), false, false, meta.startedAt),
                  [Pending(request, meta.startedAt)])
  {
    hide Passes;
    CrowdNext(pol, meta, [], Alone(Action(0, FirstSample)));
    assert [] + [Alone(Action(0, FirstSample))] == [Alone(Action(0, FirstSample))];
    CrowdNext(pol, meta, [Alone(Action(0, FirstSample))], Check(0, request));
    BeginPasses(pol, meta, StartedLog(meta), request);
    assert Open(meta.startedAt).log + [StartEvent(CampaignStart, meta.startedAt)] == StartedLog(meta);
  }

  function Overlapping(request: Request, at: int): seq<Move> {
    OneChecked(request) + [Check(0, request)] + [Append(0, 0, at)] + [Append(0, 0, at)]
  }

  /** Two invocations with the same begin scan the log before either appends: both are admitted,
      both append, and the builder refuses the log. */
  lemma OverlappingBeginsRun(pol: Policy, meta: Meta, request: Request)
    requires Setting(pol, meta, request)
    ensures var e := MarkerEvent(meta.startedAt, meta.startedAt, request);
            var log := RunCrowd(pol, meta.duration, meta.startedAt, Overlapping(request, meta.startedAt)).w.log;
            log == StartedLog(meta) + [e] + [e] && Replay(pol, meta, log).Err?
  {
    hide Passes, Replay, Execute;
    var at, e := meta.startedAt, MarkerEvent(meta.startedAt, meta.startedAt, request);
    var one := OneChecked(request);
    OneWaits(pol, meta, request);
    BeginPasses(pol, meta, StartedLog(meta), request);
    CrowdNext(pol, meta, one, Check(0, request));
    CrowdNext(pol, meta, one + [Check(0, request)], Append(0, 0, at));
    CrowdNext(pol, meta, one + [Check(0, request)] + [Append(0, 0, at)], Append(0, 0, at));
    hide RunCrowd;
    var both := [Pending(request, at)] + [Pending(request, at)];
    assert both[..0] + both[1..] == [Pending(request, at)];
    RacingBegins(pol, meta, StartedLog(meta), Some(at), at, at, request);
  }

  // ---- A marker overtaken by a probe

  function Overtaking(request: Request, at: int): seq<Move> {
    OneChecked(request) + [Alone(Action(SECOND, PassedLine(Http, 1)))] + [Append(0, 0, at)]
  }

  function ProbeLater(meta: Meta): Event {
    ProbeEvent(meta.startedAt, meta.startedAt + SECOND, Http).(result := Literal(PassedWord), sequence := Int(1))
  }

  lemma OvertakenLog(pol: Policy, meta: Meta, request: Request)
    requires Setting(pol, meta, request)
    ensures RunCrowd(pol, meta.duration, meta.startedAt, Overtaking(request, meta.startedAt)).w.log ==
            StartedLog(meta) + [ProbeLater(meta)] + [MarkerEvent(meta.startedAt, meta.startedAt, request)]
  {
    hide Passes, Rescan, WellFormed, ProbeEvent, MarkerEvent;
    var at, one, line := meta.startedAt, OneChecked(request), Alone(Action(SECOND, PassedLine(Http, 1)));
    OneWaits(pol, meta, request);
    CrowdNext(pol, meta, one, line);
    CrowdNext(pol, meta, one + [line], Append(0, 0, at));
    hide RunCrowd;
  }

  lemma OvertakenOrder(meta: Meta, request: Request)
    ensures Inside(ProbeLater(meta)) && Inside(MarkerEvent(meta.startedAt, meta.startedAt, request))
    ensures MarkerEvent(meta.startedAt, meta.startedAt, request).elapsed == Int(0)
    ensures WholeSecond(meta.startedAt) == meta.startedAt ==> ProbeLater(meta).elapsed == Int(1)
  {
    assert ProbeLater(meta).HasExactly(PassedProbeFields);
    assert MarkerEvent(meta.startedAt, meta.startedAt, request).HasExactly(ScenarioFields);
  }

  /** An invocation reads its clock, the runner logs a probe a second later, and the invocation then
      appends its record: whatever the attempt, the builder refuses the log. */
  lemma OvertakenMarkerRun(pol: Policy, meta: Meta, request: Request)
    requires Setting(pol, meta, request)
    ensures var log := RunCrowd(pol, meta.duration, meta.startedAt, Overtaking(request, meta.startedAt)).w.log;
            && log == StartedLog(meta) + [ProbeLater(meta)] + [MarkerEvent(meta.startedAt, meta.startedAt, request)]
            && Replay(pol, meta, log).Err?
  {
    hide RunCrowd, Replay, Inside, MarkerEvent, ProbeLater;
    OvertakenLog(pol, meta, request);
    OvertakenOrder(meta, request);
    var log := StartedLog(meta) + [ProbeLater(meta)] + [MarkerEvent(meta.startedAt, meta.startedAt, request)];
    assert log[2] == ProbeLater(meta) && log[3] == MarkerEvent(meta.startedAt, meta.startedAt, request);
    if Replay(pol, meta, log).Ok? {
      ReplayKeepsElapsed(pol, meta, log);
    }
  }
}
