/**
 The blocked-output escalation ladder (internal/controller/escalation.go). The
 flag that limits a warning to once per regime is logging and not modelled.
 */
module Escalation {
  import opened GoStrings

  datatype Ladder = Ladder(blockedCycles: int, lastEnableAttemptAt: Option<int>, lastRestartAt: Option<int>)
  {
    /** Every path that leaves the blocked regime. */
    function Reset(): Ladder { Ladder(0, None, lastRestartAt) }

    function NoteBlockedCycle(): Ladder { this.(blockedCycles := blockedCycles + 1) }

    function RecordEnableAttempt(at: int): Ladder { this.(lastEnableAttemptAt := Some(at)) }

    function RecordRestart(at: int): Ladder { Ladder(0, None, Some(at)) }

    predicate RestartRateLimited(now: int, minInterval: int)
    {
      minInterval > 0 && lastRestartAt.Some? && now - lastRestartAt.value < minInterval
    }
  }

  const INITIAL := Ladder(0, None, None)

  class EscalationMachine {
    var blockedCycles: int
    var lastEnableAttemptAt: Option<int>
    var lastRestartAt: Option<int>

    function State(): Ladder
      reads this
    {
      Ladder(blockedCycles, lastEnableAttemptAt, lastRestartAt)
    }

    constructor ()
      ensures State() == INITIAL
    {
      blockedCycles, lastEnableAttemptAt, lastRestartAt := 0, None, None;
    }

    method Reset()
      modifies this
      ensures State() == old(State()).Reset()
    {
      blockedCycles := 0;
      lastEnableAttemptAt := None;
    }

    method NoteBlockedCycle()
      modifies this
      ensures State() == old(State()).NoteBlockedCycle()
    {
      blockedCycles := blockedCycles + 1;
    }

    method RecordEnableAttempt(at: int)
      modifies this
      ensures State() == old(State()).RecordEnableAttempt(at)
    {
      lastEnableAttemptAt := Some(at);
    }

    method EnableAttempted() returns (r: bool)
      ensures r == State().lastEnableAttemptAt.Some?
    {
      r := lastEnableAttemptAt.Some?;
    }

    method RestartRateLimited(now: int, minInterval: int) returns (r: bool)
      ensures r == State().RestartRateLimited(now, minInterval)
    {
      r := minInterval > 0 && lastRestartAt.Some? && now - lastRestartAt.value < minInterval;
    }

    method RecordNuclearRestart(at: int)
      modifies this
      ensures State() == old(State()).RecordRestart(at)
    {
      lastRestartAt := Some(at);
      Reset();
    }
  }
}
