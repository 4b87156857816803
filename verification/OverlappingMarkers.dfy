/**
 Marker invocations that overlap: nothing locks the timeline, so between the
 scan an invocation is admitted on and the append of its record, the runner
 and other invocations may append theirs.
 */
module OverlappingMarkers {
  import opened Options
  import opened Timeline
  import opened ReportBuilder
  import opened TransitionMarker
  import opened AcceptedTimelines
  import opened CampaignRun
  import opened CampaignOutcomes
  import MarkerSimulation

  /** An invocation admitted at instant `since` that has not appended its record yet. */
  datatype Pending = Pending(request: Request, since: int)

  /** A deed of the campaign, an invocation's scan, or the append of a pending one, whose record
      carries the clock as read at some instant `at` in between. */
  datatype Move = Alone(action: Action) | Check(wait: nat, request: Request) | Append(wait: nat, which: nat, at: int)

  datatype Crowd = Crowd(w: World, pending: seq<Pending>)

  // The argument checks and the guards after the scan.
  predicate Passes(pol: Policy, log: seq<Event>, request: Request) {
    var scan := Rescan(log, request.id, request.attempt);
    WellFormed(pol, request) && scan.Some? && Admits(pol, scan.value, request.id, request.phase)
  }

  predicate MayAppend(c: Crowd, now: int, which: nat, at: int) {
    which < |c.pending| && c.w.startedAt.Some? && c.w.startedAt.value <= at && c.pending[which].since <= at <= now
  }

  function Proceed(pol: Policy, duration: nat, c: Crowd, move: Move): Crowd {
    match move
    case Alone(action) => c.(w := Execute(pol, duration, c.w, action))
    case Check(wait, request) =>
      var now := c.w.clock + wait;
      Crowd(c.w.(clock := now),
            if c.w.closed || !Passes(pol, c.w.log, request) then c.pending else c.pending + [Pending(request, now)])
    case Append(wait, which, at) =>
      var now := c.w.clock + wait;
      if !MayAppend(c, now, which, at) then c.(w := c.w.(clock := now)) else
      var e := MarkerEvent(c.w.startedAt.value, at, c.pending[which].request);
      Crowd(c.w.(clock := now, log := c.w.log + [e]), c.pending[..which] + c.pending[which + 1..])
  }

  function RunCrowd(pol: Policy, duration: nat, openedAt: int, moves: seq<Move>): Crowd {
    if moves == [] then Crowd(Open(openedAt), [])
    else Proceed(pol, duration, RunCrowd(pol, duration, openedAt, moves[..|moves| - 1]), moves[|moves| - 1])
  }

  // ---- What overlapping adds to the conditions on a log

  /** No probe or marker is overtaken by one with a larger elapsed time. */
  ghost predicate InOrder(log: seq<Event>) {
    forall i, j ::
      0 <= i < j < |log| && Inside(log[i]) && Inside(log[j]) && log[i].elapsed.Int? && log[j].elapsed.Int? ==>
        log[i].elapsed.n <= log[j].elapsed.n
  }

  /** The scan of the log before the record still admits it. */
  predicate Readmits(pol: Policy, before: seq<Event>, e: Event) {
    && e.scenarioId.Text? && e.attempt.Int? && PhaseOf(e.phase).Some?
    && var scan := Rescan(before, e.scenarioId.s, e.attempt.n);
       scan.Some? && Admits(pol, scan.value, e.scenarioId.s, PhaseOf(e.phase).value)
  }

  ghost predicate AllReadmitted(pol: Policy, log: seq<Event>) {
    forall i :: 0 <= i < |log| && IsScenario(log[i]) ==> Readmits(pol, log[..i], log[i])
  }

  lemma ConditionsOfPrefix(pol: Policy, log: seq<Event>, e: Event)
    requires InOrder(log + [e]) && AllReadmitted(pol, log + [e])
    ensures InOrder(log) && AllReadmitted(pol, log)
    ensures IsScenario(e) ==> Readmits(pol, log, e)
  {
    hide Inside, IsScenario, Readmits;
    var long := log + [e];
    assert forall i :: 0 <= i < |log| ==> long[i] == log[i];
    forall i | 0 <= i < |log| && IsScenario(log[i])
      ensures Readmits(pol, log[..i], log[i])
    {
      assert long[..i] == log[..i] && IsScenario(long[i]);
    }
    assert long[..|log|] == log && long[|log|] == e;
  }

  // The builder's previous elapsed time is the largest in the log, and occurs in it.
  ghost predicate ElapsedKept(s: State, log: seq<Event>) {
    && (forall i :: 0 <= i < |log| && Inside(log[i]) ==> log[i].elapsed.Int? && log[i].elapsed.n <= s.previousElapsed)
    && (s.previousElapsed == -1
        || exists i :: 0 <= i < |log| && Inside(log[i]) && log[i].elapsed == Int(s.previousElapsed))
  }

  lemma ElapsedOfStep(pol: Policy, meta: Meta, s: State, index: nat, e: Event)
    requires Step(pol, meta, s, index, e).Ok?
    ensures var t := Step(pol, meta, s, index, e).value;
            if Inside(e) then e.elapsed == Int(t.previousElapsed) && s.previousElapsed <= t.previousElapsed
            else t.previousElapsed == s.previousElapsed
  {
  }

  lemma ElapsedAppended(s: State, t: State, log: seq<Event>, e: Event)
    requires ElapsedKept(s, log) && InOrder(log)
    requires if Inside(e) then e.elapsed == Int(t.previousElapsed) && s.previousElapsed <= t.previousElapsed
             else t.previousElapsed == s.previousElapsed
    ensures ElapsedKept(t, log + [e]) && InOrder(log + [e])
  {
    hide Inside;
    var long := log + [e];
    assert forall i :: 0 <= i < |log| ==> long[i] == log[i];
    assert long[|log|] == e;
  }

  lemma {:induction false} ReplayKeepsElapsed(pol: Policy, meta: Meta, log: seq<Event>)
    requires Replay(pol, meta, log).Ok?
    ensures ElapsedKept(Replay(pol, meta, log).value, log) && InOrder(log)
  {
    if log != [] {
      hide Step, Inside, InOrder;
      var before, e := log[..|log| - 1], log[|log| - 1];
      var s := Replay(pol, meta, before).value;
      ReplayKeepsElapsed(pol, meta, before);
      ElapsedOfStep(pol, meta, s, |before|, e);
      ElapsedAppended(s, Replay(pol, meta, log).value, before, e);
      assert log == before + [e];
    }
  }

  lemma StepReadmits(pol: Policy, meta: Meta, before: seq<Event>, e: Event)
    requires pol.Valid() && Replay(pol, meta, before).Ok? && IsScenario(e)
    requires Step(pol, meta, Replay(pol, meta, before).value, |before|, e).Ok?
    ensures Readmits(pol, before, e)
  {
    var phase := PhaseOf(e.phase).value;
    assert e.phase == PhaseText(phase);
    MarkerSimulation.AdmissionAgrees(pol, meta, before, Request(e.scenarioId.s, e.attempt.n, phase, ""));
  }

  lemma {:induction false} ReplayReadmits(pol: Policy, meta: Meta, log: seq<Event>)
    requires pol.Valid() && Replay(pol, meta, log).Ok?
    ensures AllReadmitted(pol, log)
  {
    hide Readmits, IsScenario, Step;
    if log != [] {
      var last := |log| - 1;
      ReplayReadmits(pol, meta, log[..last]);
      forall i | 0 <= i < |log| && IsScenario(log[i])
        ensures Readmits(pol, log[..i], log[i])
      {
        if i < last {
          assert log[..last][i] == log[i] && log[..last][..i] == log[..i];
        } else {
          StepReadmits(pol, meta, log[..last], log[last]);
        }
      }
    }
  }

  // ---- A late append on an accepted log

  lemma AppendLinked(pol: Policy, meta: Meta, w: World, s: State, at: int, now: int, request: Request, tracker: Tracker)
    requires Linked(meta, w, s) && s.running && !s.ended && meta.startedAt <= at <= now && w.clock <= now
    requires WellFormed(pol, request) && PrintableText(request.notes, 512)
    requires s.previousElapsed <= ElapsedSince(meta.startedAt, at) <= meta.duration
    requires StepAttempt(pol, s.tracker, s.probes, |w.log|, Key(request.id, request.attempt), PhaseText(request.phase))
          == Ok(tracker)
    ensures var e := MarkerEvent(meta.startedAt, at, request);
            var step := Step(pol, meta, s, |w.log|, e);
            step.Ok? && Linked(meta, w.(log := w.log + [e], clock := now), step.value)
  {
    var e := MarkerEvent(meta.startedAt, at, request);
    StampMatchesElapsed(meta.startedAt, at);
    ElapsedGrows(meta.startedAt, at, now);
    MarkerStep(pol, meta, s, |w.log|, at, request, tracker);
    SequencedKept(s.probes, w.log, e);
  }

  lemma AppendGood(pol: Policy, meta: Meta, w: World, at: int, now: int, request: Request)
    requires pol.Valid() && Good(pol, meta, w) && WellFormed(pol, request)
    requires w.startedAt.Some? && w.startedAt.value <= at <= now && w.clock <= now
    requires var long := w.log + [MarkerEvent(w.startedAt.value, at, request)];
             Clean(meta.duration, long) && InOrder(long) && AllReadmitted(pol, long)
    ensures Good(pol, meta, w.(log := w.log + [MarkerEvent(w.startedAt.value, at, request)], clock := now))
  {
    var s := Replay(pol, meta, w.log).value;
    var e := MarkerEvent(meta.startedAt, at, request);
    var long := w.log + [e];
    assert IsScenario(e) by { assert e.HasExactly(ScenarioFields); }
    if s.ended { NothingCleanAfterEnd(pol, meta, w.log, e); }
    CleanPrefix(meta.duration, w.log, e);
    ConditionsOfPrefix(pol, w.log, e);
    NotOvertaken(pol, meta, w.log, e);
    MarkerSimulation.AdmissionAgrees(pol, meta, w.log, request);
    var attempt := StepAttempt(pol, s.tracker, s.probes, |w.log|,
                               Key(request.id, request.attempt), PhaseText(request.phase));
    AppendLinked(pol, meta, w, s, at, now, request, attempt.value);
    GoodAppend(pol, meta, w, e, w.(log := long, clock := now));
  }

  lemma NotOvertaken(pol: Policy, meta: Meta, log: seq<Event>, e: Event)
    requires Replay(pol, meta, log).Ok? && Inside(e) && e.elapsed.Int? && e.elapsed.n >= 0 && InOrder(log + [e])
    ensures Replay(pol, meta, log).value.previousElapsed <= e.elapsed.n
  {
    ReplayKeepsElapsed(pol, meta, log);
    hide Inside, Replay;
    var s, long := Replay(pol, meta, log).value, log + [e];
    if s.previousElapsed != -1 {
      var i :| 0 <= i < |log| && Inside(log[i]) && log[i].elapsed == Int(s.previousElapsed);
      assert long[i] == log[i] && long[|log|] == e;
    }
  }

  // ---- Every run with overlapping invocations

  // Whoever waits to append passed the argument checks.
  ghost predicate PendingOk(pol: Policy, c: Crowd) {
    forall i :: 0 <= i < |c.pending| ==> WellFormed(pol, c.pending[i].request)
  }

  lemma {:induction false} RunPendingOk(pol: Policy, duration: nat, openedAt: int, moves: seq<Move>)
    ensures PendingOk(pol, RunCrowd(pol, duration, openedAt, moves))
  {
    if moves != [] {
      RunPendingOk(pol, duration, openedAt, moves[..|moves| - 1]);
      hide Execute, WellFormed, Rescan, Admits;
    }
  }

  // A move appends at most one record, and never moves the start.
  lemma ProceedAppends(pol: Policy, duration: nat, c: Crowd, move: Move)
    ensures var w, w' := c.w, Proceed(pol, duration, c, move).w;
            && w.clock <= w'.clock
            && (w.startedAt.Some? ==> w'.startedAt == w.startedAt)
            && (w'.log != w.log ==> w'.log == w.log + [w'.log[|w.log|]])
  {
    if move.Alone? {
      ExecuteAppends(pol, duration, c.w, move.action);
    }
  }

  lemma ProceedGood(pol: Policy, meta: Meta, c: Crowd, move: Move)
    requires pol.Valid() && Good(pol, meta, c.w) && PendingOk(pol, c)
    requires var w := Proceed(pol, meta.duration, c, move).w;
             Describes(meta, w) && Clean(meta.duration, w.log) && InOrder(w.log) && AllReadmitted(pol, w.log)
    ensures Good(pol, meta, Proceed(pol, meta.duration, c, move).w)
  {
    hide Execute, Clean, InOrder, AllReadmitted, Linked, WellFormed, Replay;
    var w := c.w;
    match move
    case Alone(action) => ExecuteGood(pol, meta, w, action);
    case Check(wait, _) => LinkedLater(meta, w, Replay(pol, meta, w.log).value, w.clock + wait, w.closed);
    case Append(wait, which, at) =>
      var now := w.clock + wait;
      if MayAppend(c, now, which, at) {
        AppendGood(pol, meta, w, at, now, c.pending[which].request);
      } else {
        LinkedLater(meta, w, Replay(pol, meta, w.log).value, now, w.closed);
      }
  }

  lemma {:induction false} OrderlyCrowdAccepted(pol: Policy, meta: Meta, openedAt: int, moves: seq<Move>)
    requires pol.Valid()
    requires var w := RunCrowd(pol, meta.duration, openedAt, moves).w;
             Describes(meta, w) && Clean(meta.duration, w.log) && InOrder(w.log) && AllReadmitted(pol, w.log)
    ensures Good(pol, meta, RunCrowd(pol, meta.duration, openedAt, moves).w)
  {
    hide Proceed, Clean, InOrder, AllReadmitted, Good;
    if moves == [] {
      OpenGood(pol, meta, openedAt);
    } else {
      var before, move := moves[..|moves| - 1], moves[|moves| - 1];
      var c := RunCrowd(pol, meta.duration, openedAt, before);
      var w' := Proceed(pol, meta.duration, c, move).w;
      ProceedAppends(pol, meta.duration, c, move);
      if w'.log != c.w.log {
        CleanPrefix(meta.duration, c.w.log, w'.log[|c.w.log|]);
        ConditionsOfPrefix(pol, c.w.log, w'.log[|c.w.log|]);
      }
      RunPendingOk(pol, meta.duration, openedAt, before);
      OrderlyCrowdAccepted(pol, meta, openedAt, before);
      ProceedGood(pol, meta, c, move);
    }
  }

  /** With any number of invocations overlapping in any way, the builder's loop accepts the log
      exactly when it is clean, no record was overtaken by a later one, and the scan of the log
      before each marker still admits it there. */
  lemma CrowdAcceptedIff(pol: Policy, meta: Meta, openedAt: int, moves: seq<Move>)
    requires pol.Valid() && Describes(meta, RunCrowd(pol, meta.duration, openedAt, moves).w)
    ensures var log := RunCrowd(pol, meta.duration, openedAt, moves).w.log;
            Replay(pol, meta, log).Ok? <==> Clean(meta.duration, log) && InOrder(log) && AllReadmitted(pol, log)
  {
    hide Clean, InOrder, AllReadmitted, RunCrowd;
    var log := RunCrowd(pol, meta.duration, openedAt, moves).w.log;
    if Clean(meta.duration, log) && InOrder(log) && AllReadmitted(pol, log) {
      OrderlyCrowdAccepted(pol, meta, openedAt, moves);
    }
    if Replay(pol, meta, log).Ok? {
      AcceptedIsClean(pol, meta, log);
      ReplayKeepsElapsed(pol, meta, log);
      ReplayReadmits(pol, meta, log);
    }
  }

  /** With overlapping invocations too, a run produces a report exactly when its log is accepted,
      the campaign finished, no attempt is left open and every required scenario passed often enough. */
  lemma CrowdReportIff(pol: Policy, meta: Meta, openedAt: int, moves: seq<Move>)
    requires pol.Valid() && Describes(meta, RunCrowd(pol, meta.duration, openedAt, moves).w)
    ensures var w := RunCrowd(pol, meta.duration, openedAt, moves).w;
            Build(pol, meta, w.log).Ok? <==>
              && Clean(meta.duration, w.log) && InOrder(w.log) && AllReadmitted(pol, w.log) && w.finished
              && (forall i :: 0 <= i < |pol.required| ==> Settled(w.log, pol.required[i].0))
              && (forall i :: 0 <= i < |pol.required| ==>
                    CountMarkers(w.log, pol.required[i].0, Passed) >= pol.required[i].1)
  {
    hide Clean, InOrder, AllReadmitted, RunCrowd;
    var w := RunCrowd(pol, meta.duration, openedAt, moves).w;
    CrowdAcceptedIff(pol, meta, openedAt, moves);
    if Replay(pol, meta, w.log).Ok? {
      OrderlyCrowdAccepted(pol, meta, openedAt, moves);
      BuildOfAccepted(pol, meta, w);
    }
  }

  // When the builder's state takes a well-formed marker.
  lemma MarkerStepIff(pol: Policy, meta: Meta, s: State, index: nat, startedAt: int, at: int, request: Request)
    requires WellFormed(pol, request)
    ensures Step(pol, meta, s, index, MarkerEvent(startedAt, at, request)).Ok? <==>
              && s.running && !s.ended && PrintableText(request.notes, 512)
              && s.previousElapsed <= ElapsedSince(startedAt, at) <= meta.duration
              && !OffByMoreThanTwoSeconds(WholeSecond(at), meta.startedAt + ElapsedSince(startedAt, at) * SECOND)
              && (s.previousAt.Some? ==> s.previousAt.value <= WholeSecond(at))
              && StepAttempt(pol, s.tracker, s.probes, index,
                             Key(request.id, request.attempt), PhaseText(request.phase)).Ok?
  {
    RequestIdPrintable(request.id);
    assert MarkerEvent(startedAt, at, request).HasExactly(ScenarioFields);
    hide StepAttempt, ElapsedSince, WholeSecond;
  }

  /** The same for one marker on any accepted log: admitted on a prefix of it and appended at its
      end, it is accepted exactly when the campaign is still running, its note is printable, its
      times fit and do not go back, and the whole log still admits it. */
  lemma StaleMarkerAcceptedIff(pol: Policy, meta: Meta, log: seq<Event>, k: nat,
                               startedAt: int, at: int, request: Request)
    requires pol.Valid() && Replay(pol, meta, log).Ok? && k <= |log|
    requires Mark(pol, log[..k], Some(startedAt), at, request).Some?
    ensures var s, e := Replay(pol, meta, log).value, Mark(pol, log[..k], Some(startedAt), at, request).value;
            Replay(pol, meta, log + [e]).Ok? <==>
              && s.running && !s.ended && PrintableText(request.notes, 512)
              && s.previousElapsed <= ElapsedSince(startedAt, at) <= meta.duration
              && !OffByMoreThanTwoSeconds(WholeSecond(at), meta.startedAt + ElapsedSince(startedAt, at) * SECOND)
              && (s.previousAt.Some? ==> s.previousAt.value <= WholeSecond(at))
              && Mark(pol, log, Some(startedAt), at, request).Some?
  {
    var s, e := Replay(pol, meta, log).value, MarkerEvent(startedAt, at, request);
    assert (log + [e])[..|log|] == log;
    hide Rescan, Admits, StepAttempt, Step, MarkerEvent;
    MarkerStepIff(pol, meta, s, |log|, startedAt, at, request);
    MarkerSimulation.AdmissionAgrees(pol, meta, log, request);
  }
}
