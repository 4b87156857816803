/**
 The rescanning marker and the incremental builder are the same state machine.
 */
module MarkerSimulation {
  import opened Options
  import opened Timeline
  import opened ReportBuilder
  import opened TransitionMarker

  // What the builder's dictionaries say of one attempt.
  function Projection(s: State, key: Key): Scan {
    Scan(Find(s.tracker.attempts, key), Lookup(s.tracker.begins, key, -1), s.probes.latestPassed, s.probes.latestFailed)
  }

  // The scan's next value after one more event.
  function ScanStep(scan: Scan, index: nat, e: Event, id: string, attempt: int): Option<Scan> {
    if Unhashable(e) then None else
    var probed := SeeProbe(scan, index, e);
    if Concerns(e, id, attempt) then SeePhase(probed, index, e.phase) else Some(probed)
  }

  lemma ProbeSimulated(meta: Meta, s: State, index: nat, e: Event, id: string, attempt: int)
    requires IsProbe(e) && StepProbe(meta, s, index, e).Ok?
    ensures ScanStep(Projection(s, Key(id, attempt)), index, e, id, attempt)
         == Some(Projection(StepProbe(meta, s, index, e).value.0, Key(id, attempt)))
  {
  }

  lemma OtherAttemptsUntouched(pol: Policy, t: Tracker, p: Probes, index: nat, key: Key, phase: Json, wanted: Key)
    requires StepAttempt(pol, t, p, index, key, phase).Ok? && key != wanted
    ensures var t' := StepAttempt(pol, t, p, index, key, phase).value;
            Find(t'.attempts, wanted) == Find(t.attempts, wanted)
            && Lookup(t'.begins, wanted, -1) == Lookup(t.begins, wanted, -1)
  {
  }

  lemma AttemptSimulated(pol: Policy, t: Tracker, p: Probes, index: nat, key: Key, phase: Json)
    requires StepAttempt(pol, t, p, index, key, phase).Ok?
    ensures var t' := StepAttempt(pol, t, p, index, key, phase).value;
            SeePhase(Scan(Find(t.attempts, key), Lookup(t.begins, key, -1), p.latestPassed, p.latestFailed),
                     index, phase)
            == Some(Scan(Find(t'.attempts, key), Lookup(t'.begins, key, -1), p.latestPassed, p.latestFailed))
  {
  }

  lemma ScenarioSimulated(pol: Policy, meta: Meta, s: State, index: nat, e: Event, id: string, attempt: int)
    requires IsScenario(e) && StepScenario(pol, meta, s, index, e).Ok?
    ensures ScanStep(Projection(s, Key(id, attempt)), index, e, id, attempt)
         == Some(Projection(StepScenario(pol, meta, s, index, e).value.0, Key(id, attempt)))
  {
    var key := Key(e.scenarioId.s, e.attempt.n);
    assert Concerns(e, id, attempt) <==> key == Key(id, attempt);
    if key == Key(id, attempt) {
      AttemptSimulated(pol, s.tracker, s.probes, index, key, e.phase);
    } else {
      OtherAttemptsUntouched(pol, s.tracker, s.probes, index, key, e.phase, Key(id, attempt));
    }
  }

  lemma SimulationStep(pol: Policy, meta: Meta, s: State, index: nat, e: Event, id: string, attempt: int)
    requires Step(pol, meta, s, index, e).Ok?
    ensures ScanStep(Projection(s, Key(id, attempt)), index, e, id, attempt)
         == Some(Projection(Step(pol, meta, s, index, e).value, Key(id, attempt)))
  {
    if IsProbe(e) {
      ProbeSimulated(meta, s, index, e, id, attempt);
    } else if IsScenario(e) {
      ScenarioSimulated(pol, meta, s, index, e, id, attempt);
    }
  }

  /** On every timeline the builder has accepted so far, the marker's rescan does not raise and
      returns the builder's attempt state, begin index and latest probe indices. */
  lemma {:induction false} RescanSimulatesReplay(pol: Policy, meta: Meta, events: seq<Event>, id: string, attempt: int)
    requires Replay(pol, meta, events).Ok?
    ensures Rescan(events, id, attempt) == Some(Projection(Replay(pol, meta, events).value, Key(id, attempt)))
  {
    if events != [] {
      var last := |events| - 1;
      RescanSimulatesReplay(pol, meta, events[..last], id, attempt);
      SimulationStep(pol, meta, Replay(pol, meta, events[..last]).value, last, events[last], id, attempt);
    }
  }

  /** The marker admits a phase exactly when the builder's attempt-state and evidence checks
      accept it as the next event. */
  lemma AdmissionAgrees(pol: Policy, meta: Meta, events: seq<Event>, request: Request)
    requires pol.Valid() && Replay(pol, meta, events).Ok?
    ensures Rescan(events, request.id, request.attempt).Some?
    ensures Admits(pol, Rescan(events, request.id, request.attempt).value, request.id, request.phase)
        <==> var s := Replay(pol, meta, events).value;
             StepAttempt(pol, s.tracker, s.probes, |events|,
                         Key(request.id, request.attempt), PhaseText(request.phase)).Ok?
  {
    RescanSimulatesReplay(pol, meta, events, request.id, request.attempt);
  }
}
