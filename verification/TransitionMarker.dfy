/**
 The marker tool: before it appends a scenario marker it rescans the whole
 timeline for the state of that one attempt and for the latest probes, and
 applies its own phase and evidence guards.
 */
module TransitionMarker {
  import opened Options
  import opened Timeline

  /** What a rescan finds: attempt state, index of its begin marker, latest probe indices. */
  datatype Scan = Scan(
    state: Option<AttemptState>, begin: int, latestPassed: map<Kind, int>, latestFailed: map<Kind, int>)

  const EmptyScan := Scan(None, -1, map[], map[])

  // Looking an array or an object up in a set of kinds raises.
  predicate Unhashable(e: Event) {
    e.event == Literal(Probe) && e.kind.Container?
  }

  function SeeProbe(scan: Scan, index: nat, e: Event): Scan {
    var kind := KindOf(e.kind);
    if e.event != Literal(Probe) || kind.None? then scan
    else if e.result == Literal(PassedWord) then scan.(latestPassed := scan.latestPassed[kind.value := index])
    else if e.result == Literal(FailedWord) then scan.(latestFailed := scan.latestFailed[kind.value := index])
    else scan
  }

  predicate Concerns(e: Event, id: string, attempt: int) {
    e.event == Literal(Scenario) && e.scenarioId == Text(id) && EqualsInt(e.attempt, attempt)
  }

  // None where the scan raises "invalid state for attempt".
  function SeePhase(scan: Scan, index: nat, phase: Json): Option<Scan> {
    match PhaseOf(phase)
    case Some(Begin) =>
      if scan.state.None? then Some(scan.(state := Some(Running), begin := index)) else None
    case Some(Note) => if scan.state == Some(Running) then Some(scan) else None
    case Some(Passed) => if scan.state == Some(Running) then Some(scan.(state := Some(Ended(true)))) else None
    case Some(Failed) => if scan.state == Some(Running) then Some(scan.(state := Some(Ended(false)))) else None
    case None => None
  }

  /** The scan of a whole timeline. */
  function Rescan(events: seq<Event>, id: string, attempt: int): Option<Scan> {
    if events == [] then Some(EmptyScan) else
    var last := |events| - 1;
    match Rescan(events[..last], id, attempt)
    case None => None
    case Some(scan) =>
      if Unhashable(events[last]) then None else
      var probed := SeeProbe(scan, last, events[last]);
      if Concerns(events[last], id, attempt) then SeePhase(probed, last, events[last].phase) else Some(probed)
  }

  lemma {:induction false} RaisePersists(events: seq<Event>, id: string, attempt: int, cut: nat)
    requires cut <= |events|
    requires Rescan(events[..cut], id, attempt).None?
    ensures Rescan(events, id, attempt).None?
    decreases |events|
  {
    if cut == |events| {
      assert events[..cut] == events;
    } else {
      var last := |events| - 1;
      assert events[..last][..cut] == events[..cut];
      RaisePersists(events[..last], id, attempt, cut);
    }
  }

  method FindAttempt(events: seq<Event>, id: string, attempt: int) returns (r: Option<Scan>)
    ensures r == Rescan(events, id, attempt)
  {
    var state: Option<AttemptState> := None;
    var begin := -1;
    var latestPassed: map<Kind, int>, latestFailed: map<Kind, int> := map[], map[];
    var index := 0;
    while index < |events|
      invariant 0 <= index <= |events|
      invariant Rescan(events[..index], id, attempt) == Some(Scan(state, begin, latestPassed, latestFailed))
    {
      assert events[..index + 1][..index] == events[..index];
      var event := events[index];
      if Unhashable(event) {
        RaisePersists(events, id, attempt, index + 1);
        return None;
      }
      var kind := KindOf(event.kind);
      if event.event == Literal(Probe) && kind.Some? {
        if event.result == Literal(PassedWord) {
          latestPassed := latestPassed[kind.value := index];
        } else if event.result == Literal(FailedWord) {
          latestFailed := latestFailed[kind.value := index];
        }
      }
      if Concerns(event, id, attempt) {
        var phase := PhaseOf(event.phase);
        if phase == Some(Begin) && state.None? {
          state, begin := Some(Running), index;
        } else if phase == Some(Note) && state == Some(Running) {
        } else if (phase == Some(Passed) || phase == Some(Failed)) && state == Some(Running) {
          state := Some(Ended(phase == Some(Passed)));
        } else {
          RaisePersists(events, id, attempt, index + 1);
          return None;
        }
      }
      index := index + 1;
    }
    assert events[..index] == events;
    return Some(Scan(state, begin, latestPassed, latestFailed));
  }

  predicate Lacks(latest: map<Kind, int>, kind: Kind, since: int) {
    Lookup(latest, kind, -1) <= since
  }

  /** The guards between the scan and the append. */
  predicate Admits(pol: Policy, scan: Scan, id: string, phase: Phase) {
    && (if phase == Begin then scan.state.None? else scan.state == Some(Running))
    && (phase == Passed && id in pol.probeOracles ==>
          && !Lacks(scan.latestPassed, Http, scan.begin)
          && !Lacks(scan.latestPassed, Udp, scan.begin)
          && (id in pol.outageOracles ==>
                && !Lacks(scan.latestFailed, Http, scan.begin)
                && !Lacks(scan.latestFailed, Udp, scan.begin)
                && !Lacks(scan.latestPassed, Http, Lookup(scan.latestFailed, Http, -1))
                && !Lacks(scan.latestPassed, Udp, Lookup(scan.latestFailed, Udp, -1))))
  }

  datatype Request = Request(id: string, attempt: int, phase: Phase, notes: string)

  predicate IdChar(c: char) {
    'a' <= c <= 'z' || '0' <= c <= '9'
  }

  // ^[a-z0-9][a-z0-9-]{0,127}$
  predicate ScenarioId(s: string) {
    1 <= |s| <= 128 && IdChar(s[0]) && forall i :: 0 <= i < |s| ==> IdChar(s[i]) || s[i] == '-'
  }

  predicate NotesAllowed(notes: string) {
    0 < |notes| <= 512 && forall i :: 0 <= i < |notes| ==> notes[i] as int >= 0x20
  }

  // The argument checks, before the timeline is read.
  predicate WellFormed(pol: Policy, request: Request) {
    ScenarioId(request.id) && pol.Requires(request.id) && request.attempt >= 1 && NotesAllowed(request.notes)
  }

  function MarkerEvent(startedAt: int, now: int, request: Request): Event {
    EmptyEvent.(event := Literal(Scenario), at := Stamp(WholeSecond(now)), attempt := Int(request.attempt),
                elapsed := Int(ElapsedSince(startedAt, now)), notes := Text(request.notes),
                phase := PhaseText(request.phase), scenarioId := Text(request.id))
  }

  /** One invocation on a timeline: the event it appends, or None when it refuses.
      `startedAt` is what the campaign state file says, None while the campaign builds. */
  function Mark(pol: Policy, events: seq<Event>, startedAt: Option<int>, now: int, request: Request): Option<Event> {
    if !WellFormed(pol, request) then None else
    match Rescan(events, request.id, request.attempt)
    case None => None
    case Some(scan) =>
      if !Admits(pol, scan, request.id, request.phase) || startedAt.None? then None
      else Some(MarkerEvent(startedAt.value, now, request))
  }
}
