/**
 What the builder's acceptance of a timeline says about the timeline itself,
 stated over event indices and not over the builder's dictionaries.
 */
module AcceptedTimelines {
  import opened Options
  import opened Timeline
  import opened ReportBuilder

  predicate ProbeAt(events: seq<Event>, i: int, kind: Kind, word: Word) {
    0 <= i < |events| && IsProbe(events[i]) && KindOf(events[i].kind) == Some(kind) && events[i].result == Literal(word)
  }

  predicate Marks(e: Event, key: Key, phase: Phase) {
    IsScenario(e) && e.scenarioId == Text(key.id) && e.attempt == Int(key.attempt) && PhaseOf(e.phase) == Some(phase)
  }

  predicate MarkerAt(events: seq<Event>, i: int, key: Key, phase: Phase) {
    0 <= i < |events| && Marks(events[i], key, phase)
  }

  // Every prefix of an accepted timeline is accepted, and the next event steps its state.
  lemma PrefixAccepted(pol: Policy, meta: Meta, events: seq<Event>, i: nat)
    requires Replay(pol, meta, events).Ok? && i <= |events|
    ensures Replay(pol, meta, events[..i]).Ok?
    ensures i < |events| ==>
              Replay(pol, meta, events[..i + 1]) == Step(pol, meta, Replay(pol, meta, events[..i]).value, i, events[i])
  {
    ErrorPersists(pol, meta, events, i);
    if i < |events| {
      assert events[..i + 1][..i] == events[..i];
    }
  }

  // ---- Order of the campaign events

  predicate Inside(e: Event) {
    IsProbe(e) || IsScenario(e)
  }

  predicate Opening(events: seq<Event>) {
    && |events| >= 2
    && events[0].event == Literal(BuildStart)
    && events[1].event == Literal(CampaignStart)
  }

  ghost predicate Shaped(s: State, events: seq<Event>) {
    if !s.running then
      && !s.ended && s.campaignStarts == 0 && s.campaignEnds == 0 && s.buildStarts == |events|
      && forall i :: 0 <= i < |events| ==> events[i].event == Literal(BuildStart)
    else
      var inner := if s.ended then |events| - 1 else |events|;
      && Opening(events) && inner >= 2
      && s.buildStarts == 1 && s.campaignStarts == 1 && s.campaignEnds == (if s.ended then 1 else 0)
      && (forall i :: 2 <= i < inner ==> Inside(events[i]))
      && (s.ended ==> events[inner].event == Literal(CampaignEnd))
  }

  lemma InsideShaped(pol: Policy, meta: Meta, s: State, events: seq<Event>, e: Event)
    requires Shaped(s, events) && Inside(e) && Step(pol, meta, s, |events|, e).Ok?
    ensures Shaped(Step(pol, meta, s, |events|, e).value, events + [e])
  {
    assert e.event == Literal(Probe) || e.event == Literal(Scenario);
    assert s.running && !s.ended;
    var s' := Step(pol, meta, s, |events|, e).value;
    assert s' == s.(tracker := s'.tracker, probes := s'.probes,
                    previousElapsed := s'.previousElapsed, previousAt := s'.previousAt);
  }

  lemma CampaignEventShaped(pol: Policy, meta: Meta, s: State, events: seq<Event>, e: Event)
    requires Shaped(s, events) && !Inside(e) && Step(pol, meta, s, |events|, e).Ok?
    ensures Shaped(Step(pol, meta, s, |events|, e).value, events + [e])
  {
  }

  lemma {:induction false} ReplayShaped(pol: Policy, meta: Meta, events: seq<Event>)
    requires Replay(pol, meta, events).Ok?
    ensures Shaped(Replay(pol, meta, events).value, events)
  {
    if events != [] {
      var last := |events| - 1;
      var before := events[..last];
      ReplayShaped(pol, meta, before);
      var s := Replay(pol, meta, before).value;
      assert events == before + [events[last]];
      if Inside(events[last]) {
        InsideShaped(pol, meta, s, before, events[last]);
      } else {
        CampaignEventShaped(pol, meta, s, before, events[last]);
      }
    }
  }

  /** An accepted timeline is one build start, one campaign start, probes and markers, and the
      passing campaign end as its last event. */
  lemma AcceptedShape(pol: Policy, meta: Meta, events: seq<Event>)
    requires Build(pol, meta, events).Ok?
    ensures |events| >= 3 && Opening(events)
    ensures forall i :: 2 <= i < |events| - 1 ==> Inside(events[i])
    ensures var end := events[|events| - 1];
            && end.event == Literal(CampaignEnd) && end.result == Literal(PassedWord)
            && end.at == Stamp(meta.endedAt) && EqualsInt(end.elapsed, meta.duration)
  {
    ReplayShaped(pol, meta, events);
    PrefixAccepted(pol, meta, events, |events| - 1);
    assert events[..|events|] == events;
  }

  // ---- Probe evidence

  // i is the index of the last probe of this kind and result, -1 if there is none.
  predicate LatestIs(events: seq<Event>, kind: Kind, word: Word, i: int) {
    && (i == -1 || ProbeAt(events, i, kind, word))
    && forall j :: i < j < |events| ==> !ProbeAt(events, j, kind, word)
  }

  ghost predicate Indexed(s: State, events: seq<Event>) {
    && (forall kind :: LatestIs(events, kind, PassedWord, Lookup(s.probes.latestPassed, kind, -1)))
    && (forall kind :: LatestIs(events, kind, FailedWord, Lookup(s.probes.latestFailed, kind, -1)))
    && (forall key :: key in s.tracker.attempts ==>
          key in s.tracker.begins && MarkerAt(events, s.tracker.begins[key], key, Begin))
  }

  lemma LatestKept(events: seq<Event>, e: Event, kind: Kind, word: Word, i: int)
    requires LatestIs(events, kind, word, i) && !ProbeAt(events + [e], |events|, kind, word)
    ensures LatestIs(events + [e], kind, word, i)
  {
    forall j | i < j < |events + [e]| ensures !ProbeAt(events + [e], j, kind, word) {
      if j < |events| { assert !ProbeAt(events, j, kind, word); }
    }
  }

  lemma ProbesIndexed(pol: Policy, meta: Meta, s: State, events: seq<Event>, e: Event)
    requires Indexed(s, events) && Step(pol, meta, s, |events|, e).Ok?
    ensures var p := Step(pol, meta, s, |events|, e).value.probes;
            forall kind :: LatestIs(events + [e], kind, PassedWord, Lookup(p.latestPassed, kind, -1))
                        && LatestIs(events + [e], kind, FailedWord, Lookup(p.latestFailed, kind, -1))
  {
    var p := Step(pol, meta, s, |events|, e).value.probes;
    forall kind: Kind
      ensures LatestIs(events + [e], kind, PassedWord, Lookup(p.latestPassed, kind, -1))
           && LatestIs(events + [e], kind, FailedWord, Lookup(p.latestFailed, kind, -1))
    {
      if !ProbeAt(events + [e], |events|, kind, PassedWord) {
        LatestKept(events, e, kind, PassedWord, Lookup(s.probes.latestPassed, kind, -1));
      }
      if !ProbeAt(events + [e], |events|, kind, FailedWord) {
        LatestKept(events, e, kind, FailedWord, Lookup(s.probes.latestFailed, kind, -1));
      }
    }
  }

  // A key enters the dictionaries with its own begin marker, and its begin index never changes.
  lemma BeginsKept(pol: Policy, t: Tracker, p: Probes, index: nat, key: Key, phase: Json, other: Key)
    requires StepAttempt(pol, t, p, index, key, phase).Ok?
    requires other in StepAttempt(pol, t, p, index, key, phase).value.attempts
    ensures var t' := StepAttempt(pol, t, p, index, key, phase).value;
            if other in t.attempts then
              (other in t.begins ==> other in t'.begins && t'.begins[other] == t.begins[other])
            else other == key && PhaseOf(phase) == Some(Begin) && other in t'.begins && t'.begins[other] == index
  {
  }

  lemma BeginsIndexed(pol: Policy, meta: Meta, s: State, events: seq<Event>, e: Event)
    requires Indexed(s, events) && Step(pol, meta, s, |events|, e).Ok?
    ensures var t := Step(pol, meta, s, |events|, e).value.tracker;
            forall key :: key in t.attempts ==> key in t.begins && MarkerAt(events + [e], t.begins[key], key, Begin)
  {
    var t := Step(pol, meta, s, |events|, e).value.tracker;
    forall key | key in t.attempts ensures key in t.begins && MarkerAt(events + [e], t.begins[key], key, Begin) {
      if IsScenario(e) {
        BeginsKept(pol, s.tracker, s.probes, |events|, Key(e.scenarioId.s, e.attempt.n), e.phase, key);
      } else {
        assert t == s.tracker;
      }
      if key in s.tracker.attempts {
        assert MarkerAt(events, s.tracker.begins[key], key, Begin);
      }
    }
  }

  lemma IndexedStep(pol: Policy, meta: Meta, s: State, events: seq<Event>, e: Event, s': State)
    requires Indexed(s, events) && Step(pol, meta, s, |events|, e) == Ok(s')
    ensures Indexed(s', events + [e])
  {
    ProbesIndexed(pol, meta, s, events, e);
    BeginsIndexed(pol, meta, s, events, e);
  }

  lemma {:induction false} ReplayIndexed(pol: Policy, meta: Meta, events: seq<Event>)
    requires Replay(pol, meta, events).Ok?
    ensures Indexed(Replay(pol, meta, events).value, events)
  {
    if events != [] {
      var last := |events| - 1;
      ReplayIndexed(pol, meta, events[..last]);
      assert events == events[..last] + [events[last]];
      IndexedStep(pol, meta, Replay(pol, meta, events[..last]).value, events[..last], events[last],
                  Replay(pol, meta, events).value);
    }
  }

  // A passing probe of this kind lies strictly between the two indices.
  ghost predicate PassedBetween(events: seq<Event>, kind: Kind, begin: int, end: int) {
    exists p :: begin < p < end && ProbeAt(events, p, kind, PassedWord)
  }

  // begin < failed probe < passed probe < end, and no probe of this kind after that pass.
  ghost predicate OutageBetween(events: seq<Event>, kind: Kind, begin: int, end: int) {
    exists f, p ::
      && begin < f < p < end
      && ProbeAt(events, f, kind, FailedWord)
      && ProbeAt(events, p, kind, PassedWord)
      && forall j :: p < j < end ==> !ProbeAt(events, j, kind, PassedWord) && !ProbeAt(events, j, kind, FailedWord)
  }

  lemma ProbesOfPrefix(events: seq<Event>, cut: nat, kind: Kind, word: Word, i: int)
    requires cut <= |events| && LatestIs(events[..cut], kind, word, i)
    ensures i >= 0 ==> i < cut && ProbeAt(events, i, kind, word)
    ensures forall j :: i < j < cut ==> !ProbeAt(events, j, kind, word)
  {
    forall j | i < j < cut ensures !ProbeAt(events, j, kind, word) {
      assert !ProbeAt(events[..cut], j, kind, word);
    }
  }

  // What the builder's evidence tests say of its latest indices.
  lemma EvidencePresent(pol: Policy, t: Tracker, p: Probes, index: nat, key: Key, phase: Json, kind: Kind)
    requires PhaseOf(phase) == Some(Passed) && StepAttempt(pol, t, p, index, key, phase).Ok?
    ensures key in t.attempts
    ensures var begin, pass, fail :=
        Lookup(t.begins, key, -1), Lookup(p.latestPassed, kind, -1), Lookup(p.latestFailed, kind, -1);
            && (key.id in pol.probeOracles ==> begin < pass)
            && (key.id in pol.outageOracles ==> begin < fail < pass)
  {
    assert kind == Http || kind == Udp;
  }

  lemma PassStepped(pol: Policy, meta: Meta, s: State, index: nat, e: Event, key: Key)
    requires Step(pol, meta, s, index, e).Ok? && Marks(e, key, Passed)
    ensures PhaseOf(e.phase) == Some(Passed) && StepAttempt(pol, s.tracker, s.probes, index, key, e.phase).Ok?
  {
  }

  lemma EvidenceBetween(pol: Policy, events: seq<Event>, s: State, end: nat, key: Key, begin: int, kind: Kind)
    requires end <= |events| && Indexed(s, events[..end])
    requires var pass, fail := Lookup(s.probes.latestPassed, kind, -1), Lookup(s.probes.latestFailed, kind, -1);
             && (key.id in pol.probeOracles ==> begin < pass)
             && (key.id in pol.outageOracles ==> begin < fail < pass)
    requires begin >= 0
    ensures key.id in pol.probeOracles ==> PassedBetween(events, kind, begin, end)
    ensures key.id in pol.outageOracles ==> OutageBetween(events, kind, begin, end)
  {
    ProbesOfPrefix(events, end, kind, PassedWord, Lookup(s.probes.latestPassed, kind, -1));
    ProbesOfPrefix(events, end, kind, FailedWord, Lookup(s.probes.latestFailed, kind, -1));
  }

  /** Every counted pass follows its own begin marker; a probe-oracle pass has a passing probe of
      each kind after that begin; an outage pass has, for each kind, a failed probe and then a
      recovery after the begin, and the last probe of that kind before the pass is a success. */
  lemma PassedAttemptHasEvidence(pol: Policy, meta: Meta, events: seq<Event>, end: nat, key: Key) returns (begin: int)
    requires Replay(pol, meta, events).Ok? && MarkerAt(events, end, key, Passed)
    ensures 0 <= begin < end && MarkerAt(events, begin, key, Begin)
    ensures key.id in pol.probeOracles ==> forall kind :: PassedBetween(events, kind, begin, end)
    ensures key.id in pol.outageOracles ==> forall kind :: OutageBetween(events, kind, begin, end)
  {
    hide Step, StepAttempt, Replay, PassedBetween, OutageBetween;
    PrefixAccepted(pol, meta, events, end);
    PrefixAccepted(pol, meta, events, end + 1);
    var s := Replay(pol, meta, events[..end]).value;
    ReplayIndexed(pol, meta, events[..end]);
    PassStepped(pol, meta, s, end, events[end], key);
    EvidencePresent(pol, s.tracker, s.probes, end, key, events[end].phase, Http);
    begin := s.tracker.begins[key];
    assert MarkerAt(events[..end], begin, key, Begin);
    forall kind: Kind
      ensures key.id in pol.probeOracles ==> PassedBetween(events, kind, begin, end)
      ensures key.id in pol.outageOracles ==> OutageBetween(events, kind, begin, end)
    {
      EvidencePresent(pol, s.tracker, s.probes, end, key, events[end].phase, kind);
      EvidenceBetween(pol, events, s, end, key, begin, kind);
    }
  }

  // ---- Conservation of attempts

  // Markers of one scenario in one phase.
  function CountMarkers(events: seq<Event>, id: string, phase: Phase): nat {
    if events == [] then 0 else
    var last := |events| - 1;
    CountMarkers(events[..last], id, phase) + if MarksScenario(events[last], id, phase) then 1 else 0
  }

  predicate MarksScenario(e: Event, id: string, phase: Phase) {
    IsScenario(e) && e.scenarioId == Text(id) && PhaseOf(e.phase) == Some(phase)
  }

  function RunningKeys(t: Tracker, id: string): set<Key> {
    set key | key in t.attempts && key.id == id && t.attempts[key] == Running
  }

  lemma RunningKeysStep(pol: Policy, t: Tracker, p: Probes, index: nat, key: Key, phase: Json, id: string)
    requires StepAttempt(pol, t, p, index, key, phase).Ok?
    ensures var before, after := RunningKeys(t, id), RunningKeys(StepAttempt(pol, t, p, index, key, phase).value, id);
            if key.id != id || PhaseOf(phase) == Some(Note) then after == before
            else if PhaseOf(phase) == Some(Begin) then key !in before && after == before + {key}
            else key in before && after == before - {key}
  {
    var t' := StepAttempt(pol, t, p, index, key, phase).value;
    assert forall other :: other != key ==> (other in t'.attempts <==> other in t.attempts);
    assert forall other :: other != key && other in t.attempts ==> t'.attempts[other] == t.attempts[other];
  }

  lemma CountsStep(pol: Policy, t: Tracker, p: Probes, index: nat, key: Key, phase: Json, id: string)
    requires StepAttempt(pol, t, p, index, key, phase).Ok?
    ensures var t' := StepAttempt(pol, t, p, index, key, phase).value;
            && CountOf(t'.passed, id)
               == CountOf(t.passed, id) + (if key.id == id && PhaseOf(phase) == Some(Passed) then 1 else 0)
            && CountOf(t'.failed, id)
               == CountOf(t.failed, id) + (if key.id == id && PhaseOf(phase) == Some(Failed) then 1 else 0)
  {
  }

  ghost predicate Counted(t: Tracker, events: seq<Event>, id: string) {
    && CountOf(t.passed, id) == CountMarkers(events, id, Passed)
    && CountOf(t.failed, id) == CountMarkers(events, id, Failed)
    && CountMarkers(events, id, Begin)
       == CountMarkers(events, id, Passed) + CountMarkers(events, id, Failed) + |RunningKeys(t, id)|
  }

  lemma CountedStep(pol: Policy, meta: Meta, s: State, index: nat, e: Event, id: string)
    requires Step(pol, meta, s, index, e).Ok?
    ensures var t' := Step(pol, meta, s, index, e).value.tracker;
            && CountOf(t'.passed, id) == CountOf(s.tracker.passed, id) + (if MarksScenario(e, id, Passed) then 1 else 0)
            && CountOf(t'.failed, id) == CountOf(s.tracker.failed, id) + (if MarksScenario(e, id, Failed) then 1 else 0)
            && |RunningKeys(t', id)| == |RunningKeys(s.tracker, id)| + (if MarksScenario(e, id, Begin) then 1 else 0)
                 - (if MarksScenario(e, id, Passed) || MarksScenario(e, id, Failed) then 1 else 0)
  {
    if IsScenario(e) {
      var key := Key(e.scenarioId.s, e.attempt.n);
      CountsStep(pol, s.tracker, s.probes, index, key, e.phase, id);
      RunningKeysStep(pol, s.tracker, s.probes, index, key, e.phase, id);
    } else {
      assert Step(pol, meta, s, index, e).value.tracker == s.tracker;
    }
  }

  lemma {:induction false} ReplayCounted(pol: Policy, meta: Meta, events: seq<Event>, id: string)
    requires Replay(pol, meta, events).Ok?
    ensures Counted(Replay(pol, meta, events).value.tracker, events, id)
  {
    if events == [] {
      assert RunningKeys(Initial(pol).tracker, id) == {};
    } else {
      var last := |events| - 1;
      ReplayCounted(pol, meta, events[..last], id);
      CountedStep(pol, meta, Replay(pol, meta, events[..last]).value, last, events[last], id);
    }
  }

  lemma {:induction false} EntriesListScenarios(required: seq<(string, nat)>, s: State)
    requires Entries(required, s).Ok?
    ensures var entries := Entries(required, s).value;
            && |entries| == |required|
            && forall i :: 0 <= i < |required| ==>
                 && entries[i] == Entry(required[i].0, CountOf(s.tracker.passed, required[i].0),
                                        CountOf(s.tracker.failed, required[i].0))
                 && entries[i].passed >= required[i].1
  {
    if required != [] {
      EntriesListScenarios(required[..|required| - 1], s);
    }
  }

  /** The report of an accepted timeline lists every required scenario once, in policy order, with
      the exact number of its passed and failed markers; together they are its begin markers,
      and the passes reach the required minimum. */
  lemma ReportCountsMarkers(pol: Policy, meta: Meta, events: seq<Event>)
    requires Build(pol, meta, events).Ok?
    ensures var entries := Build(pol, meta, events).value;
            && |entries| == |pol.required|
            && forall i :: 0 <= i < |entries| ==>
                 var id := pol.required[i].0;
                 && entries[i].id == id
                 && entries[i].passed == CountMarkers(events, id, Passed)
                 && entries[i].failed == CountMarkers(events, id, Failed)
                 && entries[i].passed + entries[i].failed == CountMarkers(events, id, Begin)
                 && entries[i].passed >= pol.required[i].1
  {
    var s := Replay(pol, meta, events).value;
    EntriesListScenarios(pol.required, s);
    forall i | 0 <= i < |pol.required|
      ensures Counted(s.tracker, events, pol.required[i].0) && RunningKeys(s.tracker, pol.required[i].0) == {}
    {
      ReplayCounted(pol, meta, events, pol.required[i].0);
    }
  }
}
