/**
 The shipped configuration at work: a morning of three steps with every number and
 every published text written out, and where its SoC floors lie.
 */
module RunDay {
  import opened GoStrings
  import opened Protocol
  import opened Config
  import opened Policy
  import opened ControlSpec
  import opened StepEffects
  import opened StepShape
  import opened Runs
  import opened RunRates
  import opened RunPolicy
  import opened RunFallback
  import opened RunLadder
  import opened RunSlots
  import opened RunEcho
  import opened Ramp
  import opened RunWrites
  import T = TopCharge

  // ---- the floors ---------------------------------------------------------------------------------------

  /**
   With the shipped margin of 2 and hysteresis of 5: a device set to 90 % DoD is idle
   from 12 % down and released from 17 % up; at 30 % DoD these are 72 % and 77 %; one that
   reports no DoD is idle from 15 % down and released from 20 % up.
   */
  lemma DefaultFloors(run: Run, i: nat)
    requires IsRun(run) && run.cfg == DEFAULTS && i < |run.ins|
    requires run.cycles[i].dev.Some? && run.cycles[i].dev.value.chargingMode == 0
    ensures var idle, dod, soc := run.cycles[i].reach.FloorIdle?, run.cycles[i].dev.value.dod, run.cycles[i].dev.value.soc;
            && (dod == 90 ==> (soc <= 12 ==> idle) && (soc >= 17 ==> !idle))
            && (dod == 30 ==> (soc <= 72 ==> idle) && (soc >= 77 ==> !idle))
            && (dod == 0 ==> (soc <= 15 ==> idle) && (soc >= 20 ==> !idle))
  {
    hide Step, SurplusInterval;
    DeviceSettingsFirst(run, i);
    FloorStep(run, i + 1);
  }

  // ---- a morning ----------------------------------------------------------------------------------------

  const USER := ReadSlot(true, "8:5", "20:30", 200)

  /** Half full at 90 % DoD; the user keeps a slot of their own, the controlled one is still off. */
  const MORNING := ZERO_STATUS.(soc := 50, dod := 90, surplusFeedIn := true, slots := [NO_SLOT, USER, NO_SLOT, NO_SLOT, NO_SLOT])

  /** The device gives the 150 W it was asked for, and reports the times without padding. */
  const ARMED := MORNING.(output1Watts := 150, slots := [ReadSlot(true, "0:0", "23:59", 150), USER, NO_SLOT, NO_SLOT, NO_SLOT])

  /** The same device at the floor. */
  const LOW := ARMED.(soc := 12)

  /** A fresh meter sample and a fresh status, with an accepting broker. */
  function Seen(now: int, watts: real, dev: Status): Input
  {
    Input(Sampled(watts, now), now, false, QueryFailed, now, dev, Some(now), None, now, now, true)
  }

  /** The house draws 600 W; one minute apart the device is off, armed, and low. */
  const DAY: seq<Input> := [Seen(0, 600.0, MORNING), Seen(60_000_000_000, 450.0, ARMED), Seen(120_000_000_000, 600.0, LOW)]

  ghost predicate IsDay(run: Run) { IsRun(run) && run.cfg == DEFAULTS && run.ins == DAY }

  lemma DayExists()
    ensures IsDay(RunOf(DEFAULTS, DAY))
  {
    hide IsRun, RunOf;
    EveryInputRuns(DEFAULTS, DAY);
  }

  /** What a step of the day reads. */
  lemma DayReads(run: Run, i: nat)
    requires IsDay(run) && i < 3
    ensures run.cycles[i].dev == Some(DAY[i].status) && run.cycles[i].now == DAY[i].primaryNow
    ensures run.cycles[i].raw == DAY[i].primary.watts && run.states[i + 1].source == Primary
    ensures run.ins[i].publishOk
  {
    hide Step, Valid;
    DefaultsAreValid();
    FreshInputsDecide(run, i);
    InputsUsed(run, i);
  }

  /** Steps above the floor are evaluated, in the inactive stage, without top-charge idle. */
  lemma DayStep(run: Run, i: nat)
    requires IsDay(run) && i < 2 && !run.states[i].floorActive
    ensures var c := run.cycles[i];
            && ReachedOutput(c) && c.stage == Inactive && !run.states[i + 1].floorActive
            && c.smoothed == run.states[i + 1].smoothed && run.states[i + 1].hasSmoothed
            && c.smoothed == (if run.states[i].hasSmoothed then 0.5 * c.raw + 0.5 * run.states[i].smoothed else c.raw)
  {
    hide Step, SensedLadder, SensedClock, SurplusInterval;
    DayReads(run, i);
    DeviceSettingsFirst(run, i);
    StepTaken(run, i);
    FloorStep(run, i + 1);
    StepSensed(run.cfg, run.states[i], run.ins[i]);
    StepSignal(run.cfg, run.states[i], run.ins[i]);
  }

  lemma ProceedsWhenAnswered(cfg: Config, m: State, now: int, dev: Status, target: int, smoothed: real, ok: bool)
    requires target > 0 && !m.rearmPending
    requires m.lastCommandWatts == 0 || dev.output1Watts + dev.output2Watts > dev.solar1Watts + dev.solar2Watts
    ensures EnsureOutput(cfg, m, now, dev, target, smoothed, ok).verdict.Proceed?
  {
    hide CompleteRearm, Escalate, LiterallyWanted;
  }

  lemma GoesOn(run: Run, i: nat)
    requires IsDay(run) && i < 2 && ReachedOutput(run.cycles[i]) && run.cycles[i].target > 0 && !run.states[i].rearmPending
    requires run.states[i].lastCommandWatts == 0 || i == 1
    ensures run.cycles[i].reach.NormalStep?
  {
    hide Step, EnsureOutput, NormalControl, Target, FloorAfter;
    DayReads(run, i);
    StepTaken(run, i);
    var m, observedAt := StepRoute(run.cfg, run.states[i], run.ins[i]);
    var c := run.cycles[i];
    ProceedsWhenAnswered(run.cfg, m, c.now, c.dev.value, c.target, c.smoothed, true);
  }

  lemma DayTargets()
    ensures Target(DEFAULTS, Primary, Inactive, MORNING, 600.0) == 550
    ensures Target(DEFAULTS, Primary, Inactive, ARMED, 525.0) == 625
  {
    assert Round(600.0) == 600 && Round(525.0) == 525;
  }

  lemma DayRamp()
    ensures Ramped(DEFAULTS, 0, 550, false) == 150 && Ramped(DEFAULTS, 150, 625, false) == 300
  {
    hide Ramped;
    RampedExactly(DEFAULTS, 0, 550, false);
    RampedExactly(DEFAULTS, 150, 625, false);
  }

  /** Step i is normal control that writes that many watts to RAM. */
  predicate WritesAt(run: Run, i: nat, watts: int)
    requires i < |run.ins|
  {
    && Tried(run, i).Some? && Commands(run.cfg, Tried(run, i).value.cmd, watts) && !Tried(run, i).value.cmd.flash
    && run.states[i + 1].lastCommandWatts == watts
  }

  lemma NothingSentBefore(run: Run)
    requires IsRun(run) && |run.ins| > 0
    ensures LastPublish(run, 0, Sel.Writes) == None
  {
    NothingSentYet(run, Sel.Writes);
  }

  /** The first step asks for 150 W: the ramp's share of the 550 W that are wanted. */
  lemma FirstStep(run: Run)
    requires IsDay(run)
    ensures run.cycles[0].target == 550 && run.cycles[0].smoothed == 600.0
    ensures WritesAt(run, 0, 150) && Tried(run, 0).value.at == 0
    ensures !run.states[1].floorActive && !run.states[1].rearmPending
  {
    hide Step, Ramped, Target, LastPublish, Valid, Commands, Fits, Accepted, Quiet, RearmCandidate;
    DefaultsAreValid();
    DayReads(run, 0);
    DayStep(run, 0);
    TargetOfStep(run, 0);
    DayTargets();
    GoesOn(run, 0);
    NothingSentBefore(run);
    DayRamp();
    NormalWritesExactly(run, 0);
    FlashAt(run, 0);
    NoNormalControlWhileRearming(run, 0);
    InputsUsed(run, 0);
  }

  /** Without leave to write flash no attempt does. */
  lemma FlashAt(run: Run, i: nat)
    requires IsRun(run) && run.cfg == DEFAULTS && i < |run.ins| && Tried(run, i).Some? && Tried(run, i).value.cmd.TimedDischarge?
    ensures !Tried(run, i).value.cmd.flash
  {
    hide Valid, Accepted, Quiet, Canonical, RearmCooldown, SurplusInterval;
    DefaultsAreValid();
    ValidHasWatts(run.cfg);
    AttemptAt(run, i);
  }

  /** The second step, a minute later, asks for one ramp limit more. */
  lemma SecondStep(run: Run)
    requires IsDay(run)
    ensures run.cycles[1].target == 625 && run.cycles[1].smoothed == 525.0
    ensures WritesAt(run, 1, 300) && !run.states[2].rearmPending
  {
    hide Step, Ramped, Target, LastPublish, Valid, Commands, Fits, Accepted, Quiet, RearmCandidate;
    DefaultsAreValid();
    FirstStep(run);
    DayReads(run, 0);
    DayStep(run, 0);
    DayReads(run, 1);
    DayStep(run, 1);
    TargetOfStep(run, 1);
    DayTargets();
    GoesOn(run, 1);
    NotHeld(run);
    DayRamp();
    NormalWritesExactly(run, 1);
    FlashAt(run, 1);
    NoNormalControlWhileRearming(run, 1);
  }

  lemma NotHeld(run: Run)
    requires IsDay(run) && WritesAt(run, 0, 150) && Tried(run, 0).value.at == 0 && run.cycles[1].now == 60_000_000_000
    ensures !Held(run, 1)
  {
    hide Step, Commands, Valid, Accepted, Quiet, Fits;
    DefaultsAreValid();
    DayReads(run, 0);
    ValidHasWatts(run.cfg);
    AttemptAt(run, 0);
    LastPublishStep(run, 1, Sel.Writes);
  }

  /** The third step finds the device at 12 % and stops it. */
  lemma ThirdStep(run: Run)
    requires IsDay(run)
    ensures run.cycles[2].reach.FloorIdle? && WritesAt(run, 2, 0)
  {
    hide Step, Valid, Fits, Accepted, Quiet, ObservedAt, Known, StopOver;
    DefaultsAreValid();
    SecondStep(run);
    DayReads(run, 2);
    DefaultFloors(run, 2);
    StopsWriteExactly(run, 2);
    NotAwaited(run);
    StopsStop(run, 2);
    ValidHasWatts(run.cfg);
    AttemptAt(run, 2);
    FlashAt(run, 2);
  }

  lemma NotAwaited(run: Run)
    requires IsDay(run) && WritesAt(run, 1, 300)
    ensures !Reports(DEFAULTS, LOW, 0) && !AwaitedAt(run, 2, StopOver(DEFAULTS, LOW), ObservedAt(run.cfg, run.ins[2]))
  {
    hide Step, Valid, Fits, Quiet, ObservedAt, Sets;
    DefaultsAreValid();
    ValidHasWatts(run.cfg);
    AttemptAt(run, 1);
    DayReads(run, 1);
    StopIsOff();
  }

  lemma StopIsOff()
    ensures var cmd := StopOver(DEFAULTS, LOW);
            cmd.TimedDischarge? && !cmd.slots[0].enabled
  {
    hide NormaliseTime;
  }

  // ---- the texts -------------------------------------------------------------------------------------------

  /** A text of the day around what it says of the controlled slot: the user's slot is padded, the unused ones are written out. */
  function DayText(first: string): string
  {
    "cd=20,md=0" + first + ",a2=1,b2=08:05,e2=20:30,v2=200" + ",a3=0,b3=00:00,e3=00:00,v3=0"
    + ",a4=0,b4=00:00,e4=00:00,v4=0" + ",a5=0,b5=00:00,e5=00:00,v5=0"
  }

  lemma UserText()
    ensures SlotText("2", Slot(true, "08:05", "20:30", 200)) == ",a2=1,b2=08:05,e2=20:30,v2=200"
  {
    hide Itoa;
    DayNumerals();
  }

  lemma UnusedTextThree()
    ensures SlotText("3", Slot(false, "00:00", "00:00", 0)) == ",a3=0,b3=00:00,e3=00:00,v3=0"
  {
    hide Itoa;
    DayNumerals();
  }

  lemma UnusedTextFour()
    ensures SlotText("4", Slot(false, "00:00", "00:00", 0)) == ",a4=0,b4=00:00,e4=00:00,v4=0"
  {
    hide Itoa;
    DayNumerals();
  }

  lemma UnusedTextFive()
    ensures SlotText("5", Slot(false, "00:00", "00:00", 0)) == ",a5=0,b5=00:00,e5=00:00,v5=0"
  {
    hide Itoa;
    DayNumerals();
  }

  lemma DayNumerals()
    ensures Itoa(0) == "0" && Itoa(150) == "150" && Itoa(200) == "200" && Itoa(300) == "300"
  {
    assert Itoa(15) == Itoa(1) + ['5'] && Itoa(150) == Itoa(15) + ['0'];
    assert Itoa(20) == Itoa(2) + ['0'] && Itoa(200) == Itoa(20) + ['0'];
    assert Itoa(30) == Itoa(3) + ['0'] && Itoa(300) == Itoa(30) + ['0'];
  }

  lemma FirstText()
    ensures SlotText("1", Slot(true, "00:00", "23:59", 150)) == ",a1=1,b1=00:00,e1=23:59,v1=150"
  {
    hide Itoa;
    DayNumerals();
  }

  lemma SecondText()
    ensures SlotText("1", Slot(true, "00:00", "23:59", 300)) == ",a1=1,b1=00:00,e1=23:59,v1=300"
  {
    hide Itoa;
    DayNumerals();
  }

  lemma ThirdText()
    ensures SlotText("1", Slot(false, "00:00", "23:59", 0)) == ",a1=0,b1=00:00,e1=23:59,v1=0"
  {
    hide Itoa;
    DayNumerals();
  }

  /** The slots of a write of the day, the controlled one apart. */
  lemma DaySlots(run: Run, i: nat, watts: int)
    requires IsDay(run) && i < 3 && WritesAt(run, i, watts)
    ensures Tried(run, i).value.cmd.TimedDischarge? && !Tried(run, i).value.cmd.flash
    ensures var slots := Tried(run, i).value.cmd.slots;
            && slots[0] == Slot(watts > 0, "00:00", "23:59", watts) && slots[1] == Slot(true, "08:05", "20:30", 200)
            && forall k :: 2 <= k < 5 ==> slots[k] == Slot(false, "00:00", "00:00", 0)
  {
    hide Step, NormaliseTime;
    DayReads(run, i);
    WritesKeepOtherSlots(run, i);
    PaddedTimes();
    var dev := run.cycles[i].dev.value;
    assert dev.slots[1] == USER && dev.slots[2] == NO_SLOT && dev.slots[3] == NO_SLOT && dev.slots[4] == NO_SLOT;
    UserTimes();
  }

  lemma UserTimes()
    ensures NormaliseTime("20:30") == "20:30" && NormaliseTime("") == "00:00"
  {
    NormaliseTimeIs("20", "30");
    assert "20" + ":" + "30" == "20:30";
  }

  lemma TextOfDay(run: Run, i: nat, watts: int)
    requires IsDay(run) && i < 3 && WritesAt(run, i, watts)
    ensures Payload(Tried(run, i).value.cmd) == DayText(SlotText("1", Slot(watts > 0, "00:00", "23:59", watts)))
  {
    hide SlotText, Commands;
    DaySlots(run, i, watts);
    var cmd := Tried(run, i).value.cmd;
    TimedPayloadText(cmd.slots, cmd.flash);
    UserText();
    UnusedTextThree();
    UnusedTextFour();
    UnusedTextFive();
  }

  /** The three texts the device gets, in full. */
  lemma TextsOfTheDay(run: Run)
    requires IsDay(run)
    ensures Tried(run, 0).Some? && Payload(Tried(run, 0).value.cmd) == DayText(",a1=1,b1=00:00,e1=23:59,v1=150")
    ensures Tried(run, 1).Some? && Payload(Tried(run, 1).value.cmd) == DayText(",a1=1,b1=00:00,e1=23:59,v1=300")
    ensures Tried(run, 2).Some? && Payload(Tried(run, 2).value.cmd) == DayText(",a1=0,b1=00:00,e1=23:59,v1=0")
  {
    hide IsDay, Payload, SlotText, DayText, Commands;
    FirstStep(run);
    SecondStep(run);
    ThirdStep(run);
    DayIsThree(run);
    TextOfDay(run, 0, 150);
    TextOfDay(run, 1, 300);
    TextOfDay(run, 2, 0);
    FirstText();
    SecondText();
    ThirdText();
  }

  lemma DayIsThree(run: Run)
    requires IsDay(run)
    ensures |run.ins| == 3
  {
  }
}
