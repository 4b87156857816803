/**
 The phases of an mKCP connection only move forward.
 */
module KcpPhases {
  import opened KcpEngine
  import opened KcpReliability

  // How far a connection has got towards its end.
  function Progress(phase: Phase): nat {
    match phase
    case Active => 0
    case ReadyToClose => 1
    case PeerClosed => 1
    case PeerTerminating => 2
    case Terminating => 3
    case Terminated => 4
  }

  predicate Forward(before: Phase, after: Phase) {
    before == after || Progress(before) < Progress(after)
  }

  lemma InputForward(cfg: Config, e: Engine, segment: Segment)
    ensures Forward(e.phase, Input(cfg, e, segment).phase)
  {
  }

  lemma FlushForward(e: Engine, timers: Timers, ackLists: seq<seq<nat>>, transmit: seq<nat>, ping: bool)
    ensures Forward(e.phase, Flush(e, timers, ackLists, transmit, ping).0.phase)
  {
    hide Emissions;
  }

  lemma StepLeftForward(cfg: Config, s: System, action: Action)
    requires cfg.chunk > 0
    ensures Forward(s.left.phase, StepLeft(cfg, s, action).left.phase)
    ensures StepLeft(cfg, s, action).right == s.right
  {
    hide Input, Flush, PushChunks, ReadReceiver;
    match action
    case Arriving(segment) => InputForward(cfg, s.left, segment);
    case Flushing(timers, ackLists, transmit, ping) => FlushForward(s.left, timers, ackLists, transmit, ping);
    case _ =>
  }

  /** Over every run an end keeps its phase or moves forward for good: it never returns to a phase
      it has left and stays terminated. */
  lemma {:induction false} PhasesOnlyAdvance(cfg: Config, turns: seq<Turn>, cut: nat)
    requires cfg.chunk > 0 && cut <= |turns|
    ensures Forward(Run(cfg, turns[..cut]).left.phase, Run(cfg, turns).left.phase)
    ensures Forward(Run(cfg, turns[..cut]).right.phase, Run(cfg, turns).right.phase)
    decreases |turns|
  {
    hide StepLeft;
    if cut == |turns| {
      assert turns[..cut] == turns;
    } else {
      var before, turn := turns[..|turns| - 1], turns[|turns| - 1];
      assert before[..cut] == turns[..cut];
      PhasesOnlyAdvance(cfg, before, cut);
      var s := Run(cfg, before);
      StepLeftForward(cfg, if turn.atLeft then s else Mirror(s), turn.action);
    }
  }

  /** How often the left end has changed its phase. */
  function Changes(cfg: Config, turns: seq<Turn>): nat
    requires cfg.chunk > 0
  {
    if turns == [] then 0 else
    var before := turns[..|turns| - 1];
    Changes(cfg, before) + if Run(cfg, before).left.phase != Run(cfg, turns).left.phase then 1 else 0
  }

  /** An end changes phase at most four times. */
  lemma {:induction false} FewPhaseChanges(cfg: Config, turns: seq<Turn>)
    requires cfg.chunk > 0
    ensures Changes(cfg, turns) <= Progress(Run(cfg, turns).left.phase) <= 4
  {
    hide Step;
    if turns != [] {
      var before := turns[..|turns| - 1];
      FewPhaseChanges(cfg, before);
      PhasesOnlyAdvance(cfg, turns, |before|);
    }
  }
}
