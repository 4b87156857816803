/**
 When a campaign yields a report, and the three ways the tools let a log
 become one the builder rejects.
 */
module CampaignOutcomes {
  import opened Options
  import opened Timeline
  import opened ReportBuilder
  import opened TransitionMarker
  import opened AcceptedTimelines
  import opened CampaignRun

  lemma {:induction false} EntriesAccepted(required: seq<(string, nat)>, s: State)
    ensures Entries(required, s).Ok? <==>
              forall i :: 0 <= i < |required| ==> CountOf(s.tracker.passed, required[i].0) >= required[i].1
  {
    if required != [] {
      var last := |required| - 1;
      EntriesAccepted(required[..last], s);
      assert forall i :: 0 <= i < last ==> required[..last][i] == required[i];
    }
  }

  ghost predicate TracksRequired(pol: Policy, s: State) {
    forall key :: key in s.tracker.attempts ==> pol.Requires(key.id)
  }

  lemma {:induction false} ReplayTracksRequired(pol: Policy, meta: Meta, events: seq<Event>)
    requires Replay(pol, meta, events).Ok?
    ensures TracksRequired(pol, Replay(pol, meta, events).value)
  {
    if events != [] {
      var last := |events| - 1;
      ReplayTracksRequired(pol, meta, events[..last]);
      var s, e := Replay(pol, meta, events[..last]).value, events[last];
      forall key | key in Replay(pol, meta, events).value.tracker.attempts ensures pol.Requires(key.id) {
        if IsScenario(e) {
          BeginsKept(pol, s.tracker, s.probes, last, Key(e.scenarioId.s, e.attempt.n), e.phase, key);
        }
      }
    }
  }

  // Every attempt of the scenario that began has also ended.
  predicate Settled(log: seq<Event>, id: string) {
    CountMarkers(log, id, Begin) == CountMarkers(log, id, Passed) + CountMarkers(log, id, Failed)
  }

  lemma NoneRunningIffSettled(pol: Policy, meta: Meta, log: seq<Event>)
    requires Replay(pol, meta, log).Ok?
    ensures (exists key :: key in Replay(pol, meta, log).value.tracker.attempts
                        && Replay(pol, meta, log).value.tracker.attempts[key] == Running)
        <==> exists i :: 0 <= i < |pol.required| && !Settled(log, pol.required[i].0)
  {
    var s := Replay(pol, meta, log).value;
    ReplayTracksRequired(pol, meta, log);
    forall i | 0 <= i < |pol.required| ensures Counted(s.tracker, log, pol.required[i].0) {
      ReplayCounted(pol, meta, log, pol.required[i].0);
    }
    if key :| key in s.tracker.attempts && s.tracker.attempts[key] == Running {
      assert key in RunningKeys(s.tracker, key.id);
      var i :| 0 <= i < |pol.required| && pol.required[i].0 == key.id;
      assert !Settled(log, pol.required[i].0);
    }
    if i :| 0 <= i < |pol.required| && !Settled(log, pol.required[i].0) {
      var key :| key in RunningKeys(s.tracker, pol.required[i].0);
    }
  }

  // What the checks after the loop ask of an accepted log.
  lemma BuildOfAccepted(pol: Policy, meta: Meta, w: World)
    requires Good(pol, meta, w)
    ensures Build(pol, meta, w.log).Ok? <==>
              && w.finished
              && (forall i :: 0 <= i < |pol.required| ==> Settled(w.log, pol.required[i].0))
              && (forall i :: 0 <= i < |pol.required| ==>
                    CountMarkers(w.log, pol.required[i].0, Passed) >= pol.required[i].1)
  {
    hide Settled, CountMarkers;
    var s := Replay(pol, meta, w.log).value;
    ReplayShaped(pol, meta, w.log);
    NoneRunningIffSettled(pol, meta, w.log);
    EntriesAccepted(pol.required, s);
    forall i | 0 <= i < |pol.required|
      ensures CountOf(s.tracker.passed, pol.required[i].0) == CountMarkers(w.log, pol.required[i].0, Passed)
    {
      ReplayCounted(pol, meta, w.log, pol.required[i].0);
    }
  }

  /** A run produces a report exactly when it was clean, finished, left no attempt open and passed
      every required scenario often enough. */
  lemma ReportIffComplete(pol: Policy, meta: Meta, openedAt: int, actions: seq<Action>)
    requires pol.Valid() && Describes(meta, Run(pol, meta.duration, openedAt, actions))
    ensures var w := Run(pol, meta.duration, openedAt, actions);
            Build(pol, meta, w.log).Ok? <==>
              && Clean(meta.duration, w.log) && w.finished
              && (forall i :: 0 <= i < |pol.required| ==> Settled(w.log, pol.required[i].0))
              && (forall i :: 0 <= i < |pol.required| ==>
                    CountMarkers(w.log, pol.required[i].0, Passed) >= pol.required[i].1)
  {
    hide Run, Clean;
    var w := Run(pol, meta.duration, openedAt, actions);
    RunAcceptedIffClean(pol, meta, openedAt, actions);
    if Replay(pol, meta, w.log).Ok? {
      CleanRunAccepted(pol, meta, openedAt, actions);
      BuildOfAccepted(pol, meta, w);
    }
  }

  /** The state file outlives the campaign end for a moment: a marker admitted then makes the
      builder reject the whole timeline. */
  lemma LateMarkerSpoilsLog(pol: Policy, meta: Meta, log: seq<Event>, startedAt: Option<int>,
                             now: int, request: Request)
    requires Replay(pol, meta, log).Ok? && Replay(pol, meta, log).value.ended
    requires Mark(pol, log, startedAt, now, request).Some?
    ensures Replay(pol, meta, log + [Mark(pol, log, startedAt, now, request).value]) == Err(OutsideCampaign)
  {
    var e := Mark(pol, log, startedAt, now, request).value;
    assert e.HasExactly(ScenarioFields);
    assert (log + [e])[..|log|] == log;
  }

  /** Two markers that read the same timeline can both be admitted as the begin of one attempt;
      the builder rejects a timeline holding both. */
  lemma RacingBegins(pol: Policy, meta: Meta, log: seq<Event>, startedAt: Option<int>,
                      now: int, later: int, request: Request)
    requires Mark(pol, log, startedAt, now, request).Some? && request.phase == Begin
    ensures Mark(pol, log, startedAt, later, request).Some?
    ensures Replay(pol, meta, log + [Mark(pol, log, startedAt, now, request).value]
                                  + [Mark(pol, log, startedAt, later, request).value]).Err?
  {
    var first := log + [Mark(pol, log, startedAt, now, request).value];
    var e := Mark(pol, log, startedAt, later, request).value;
    assert (first + [e])[..|first|] == first;
    if Replay(pol, meta, first).Ok? {
      assert first[..|log|] == log;
      var s := Replay(pol, meta, first).value;
      assert Key(request.id, request.attempt) in s.tracker.attempts by {
        assert MarkerEvent(startedAt.value, now, request).HasExactly(ScenarioFields);
      }
      assert e.HasExactly(ScenarioFields);
      assert StepAttempt(pol, s.tracker, s.probes, |first|, Key(request.id, request.attempt), e.phase).Err?;
    }
  }

  /** The marker only refuses control characters below 0x20, so it admits notes the builder does
      not find printable, such as a lone DEL; such a marker spoils the timeline. */
  lemma UnprintableNoteSpoilsLog(pol: Policy, meta: Meta, log: seq<Event>, startedAt: Option<int>,
                                  now: int, request: Request)
    requires Mark(pol, log, startedAt, now, request).Some? && !PrintableText(request.notes, 512)
    ensures Replay(pol, meta, log + [Mark(pol, log, startedAt, now, request).value]).Err?
    ensures NotesAllowed([0x7f as char]) && !PrintableText([0x7f as char], 512)
  {
    var e := Mark(pol, log, startedAt, now, request).value;
    var long := log + [e];
    assert long[|log|] == e && e.HasExactly(ScenarioFields) && !PrintableNotes(e);
    if Replay(pol, meta, long).Ok? {
      AcceptedIsClean(pol, meta, long);
    }
    assert !Printable([0x7f as char][0]);
  }
}
