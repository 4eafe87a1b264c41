# Verified model of marstek-prometheus-controller

A Go daemon keeps grid power near zero by setting one timed-discharge slot of a
Marstek B2500 battery over MQTT, and can restart the device on a cron schedule.
This project models its two hard components in Dafny and proves what they promise:

- **The cron engine** (`internal/schedule/schedule.go`): the parser of 5-field specs
  and the jumping search for the next firing minute, proved equal to trying every
  minute over the Gregorian calendar.
- **The discharge controller** (`internal/controller`) with the payload codec it
  speaks (`internal/marstek/protocol.go`): one control step as a large state machine,
  and theorems about whole runs of it, over every sequence of inputs.

`dafny verify dfyconfig.toml` checks everything.

## How it is organised

| file | contents |
|---|---|
| `GoStrings.dfy` | the string and number functions of Go that the code calls |
| `Calendar.dfy` | day numbers and civil dates, months, weekdays, the 400-year period |
| `CronNext.dfy` | what it means to fire, `nextValidMonth` and `Next` with their loops |
| `CronParse.dfy` | the grammar of a field, the bit loop, the whole parser, and what a spec asks for word by word |
| `CronWitness.dfy` | two specs asked at a known Monday |
| `Protocol.dfy`, `Report.dfy` | payloads, `parseKV`, statuses, slot times, the round trips; statuses as a device reports them |
| `Config.dfy`, `Policy.dfy` | the validated configuration; smoothing, stages, target, ramp |
| `TopCharge.dfy`, `Escalation.dfy` | the two sub-machines, as classes and as values |
| `ControlSpec.dfy` | one step of the controller as a function on values |
| `Controller.dfy` | the controller as an object updated in place, proved against `ControlSpec` |
| `StepEffects.dfy`, `StepShape.dfy` | what each phase of a step can do, and how a step runs through its phases |
| `Runs.dfy` | runs, the publish trace, command memory against trace |
| `RunRates.dfy`, `RunLadder.dfy` | rate limits, flash guard, re-arm; what a restart has behind it |
| `RunLiveness.dfy`, `RunRearm.dfy` | how soon a stuck output is answered; how soon a re-arm starts and ends |
| `RunPolicy.dfy`, `Ramp.dfy` | SoC floor, hold time, export fast path, high-SoC history; convergence of commands |
| `RunIdle.dfy`, `RunFallback.dfy` | top-charge idle over runs; stale inputs, fallback and stops |
| `RunSlots.dfy`, `RunEcho.dfy` | the other four slots and the payload texts; pending-echo suppression and recognition |
| `RunWrites.dfy` | which inputs a step uses, and when exactly it publishes |
| `Readings.dfy` | the conditions of the main results on the device's fields and on the trace |
| `RunWitness.dfy`, `RunDay.dfy` | concrete runs behind two of the findings; a morning with the shipped configuration, text by text |

A run (`Runs.Run`) is a configuration, the inputs its steps saw, the states around the steps
and the record of each step; `Runs.EveryInputRuns` and `Runs.RunsAreDetermined` show that every
sequence of inputs has exactly one. An input holds the two query
results, the clock readings in the order the code takes them, the latest status and
its receive time, the poll result, and whether the broker accepts the publish of the
step. One answer per step is enough because no step publishes twice
(`Runs.OneAttemptPerStep`). A publish counts as accepted when `Publish` returned no
error. `Controller.Controller.Step` keeps the object in the last state of the run of the
inputs it has seen, so every theorem about runs is a theorem about the object.

## Assumptions

- Cron times are minutes of a zone with a fixed offset of whole minutes; Go's `int` has 64 bits.
- Power samples are real numbers. Durations and times are unbounded integers (nanoseconds).
- Where a theorem needs a configuration, it is one that `validate` accepts (`Config.Valid`).
  Where it compares times of different steps, the clock does not run backwards (`Runs.Clocked`).
- Go's zero `time.Time` is `None`, an empty pending payload is `None`, and a status that
  was never read is `None`.
- Pending payloads are compared as commands, not as texts; `RunSlots.PendingTextIsPendingCommand`
  proves that this is the same comparison for every status that came from `ParseStatus`.

## What was found

- `Next` says it searches about 4 years (`internal/schedule/schedule.go:106-115`). The cap counts
  iterations, not minutes, and a search uses at most one iteration a day plus two days of
  minutes, so the cap never cuts off a schedule that can fire. It returns the zero time
  exactly for schedules whose days no listed month has (`CronNext.NotFoundExactly`).
- For instants before year 1 the zero time can hide a match (`CronNext.ZeroHidesNewYear`).
- A weekday range that ends in 7 is read as ending in 6. It keeps its meaning exactly when it starts
  on Sunday or steps over 7; 1-7 loses Sunday and 7-7 is rejected (`CronParse.RangeToSevenIsSundayExactly`,
  `CronParse.MondayToSundayHasNoSunday`).
- The loop that sets the bits of a part can overflow: a step from 2^63 - start on makes it walk
  backwards, and if start + 2 * step reaches 2^64 it sets bits outside the arithmetic
  progression (`CronParse.PartBitsExact`, `CronParse.HugeStepFiresEarly`).
- The escalation check compares the raw reported slot times. A stuck output on a slot that the
  controller accepts as wanted is counted exactly when the device reports the configured times letter by
  letter; one that reports 00:00 as 0:0 is never rescued (`RunLadder.StuckAsWantedCountsExactly`,
  `RunWitness.RaggedOutputIsNeverRescued`).
- A configured time such as 0:0 passes validation, but the controller then never recognises the echo
  of its own write, and writes it again after every cooldown or new status (`RunEcho.EchoedCommandIsLeftAlone`).
- A status without `tc_dis`, or with one that is not a number, reads as surplus feed-in enabled
  (`Protocol.SurplusFlagExactly`).
- Nothing relates ramp limits to the delta threshold; a smaller ramp can stall for ever.
  `Ramp.SettlesExactly` gives the exact condition.
- With a debounce of a single sample an active high-SoC stage does not keep top-charge idle
  out (`RunIdle.ActiveStageIdlesExactly`, `RunWitness.SingleSampleIdlesAtOnce`).
- The repository's README (lines 120-122) says how to switch on top-charge idle: enforce surplus feed-in. With the
  shipped thresholds it then still never engages: it is entered at 100 %, and from 90 % on every step is in
  an active high-SoC stage, which starts its two-sample debounce over (`Readings.HighEntryLevelNeverIdles`,
  `Readings.ShippedIdleNeverEngages`).
- The repository's README says that other slots are preserved exactly as reported. The code
  normalises their times and clamps their watts, so the promise holds of a slot exactly when its
  times are padded and its watts lie in 0..800 (`RunSlots.OtherSlotKeptExactly`, `Protocol.RaggedSlotIsChanged`).

## Model

| member | source | states |
|---|---|---|
| Calendar.CivilOfDayNumber | internal/schedule/schedule.go:142-143 | a valid date is recovered from its day number, so day numbers and dates correspond one to one |
| Calendar.CivilSuccessor | internal/schedule/schedule.go:142-143 | the next day number is tomorrow's date, over month ends and leap years: what `time.Date` does with day + 1 |
| Calendar.MonthSpan | internal/schedule/schedule.go:170-183 | a day lies before the start of a month exactly when its month is earlier |
| Calendar.Period400 | internal/schedule/schedule.go:108-165 | dates and weekdays repeat every 146097 days |
| Calendar.WeekdayTurnsOver | internal/schedule/schedule.go:129 | tomorrow's weekday is today's plus one, modulo 7 |
| Calendar.KnownMonday | internal/schedule/schedule.go:129 | 1 January 2024 is day 738885 and a Monday |
| Calendar.KnownMonths | internal/schedule/schedule.go:170-183 | the starts of the months of 2024 and 2025 and the length of February in 1900 and 2000, as numbers |
| CronNext.Next | internal/schedule/schedule.go:108-165 | a result other than the zero time is a firing minute strictly after the instant, and the least one; the zero time is returned exactly when the schedule never fires or the zero value itself hides the match |
| CronNext.NextValidMonth | internal/schedule/schedule.go:167-183 | the start of the first later month in the mask; nothing only when no month is in the mask |
| CronNext.VixieRule | internal/schedule/schedule.go:127-139 | the four-way day check decides the Vixie rule: either day field when both are restricted |
| CronNext.NotFoundExactly | internal/schedule/schedule.go:101-165 | for a parsed schedule asked at or after the zero instant, "not found" means exactly that only the day of the month is restricted, to days no listed month has |
| CronNext.NeverFiresExactly | internal/schedule/schedule.go:106-107 | a parsed schedule never fires if and only if it asks only for such days |
| CronNext.RecursSoon | internal/schedule/schedule.go:114-116 | a schedule that fires at all fires within 400 years of any minute |
| CronNext.JumpPays | internal/schedule/schedule.go:114-116 | every jump of the search pays for its iteration out of a budget while a match lies ahead |
| CronNext.CapIsFarAway | internal/schedule/schedule.go:114-116 | that budget stays below the iteration cap for 400 years |
| CronNext.MonthJumpSkipsNothing | internal/schedule/schedule.go:117-125 | no firing minute lies between a minute and the start of the next month in the mask |
| CronNext.DayJumpSkipsNothing | internal/schedule/schedule.go:140-145 | none lies in the rest of a day that does not fire |
| CronNext.HourJumpSkipsNothing | internal/schedule/schedule.go:147-154 | none lies in the rest of an hour outside the mask, also when hour 24 becomes the next day |
| CronNext.MinuteStep | internal/schedule/schedule.go:156-160 | stepping over a minute outside the mask skips no match and stays within the day |
| CronNext.GoDateOfDay | internal/schedule/schedule.go:142-152 | `time.Date` with a day or hour past its range lands on the following days and hours |
| CronNext.ZeroHidesNothingLater | internal/schedule/schedule.go:121-123 | from the zero instant on, the zero value never hides a match |
| CronNext.ZeroHidesNewYear | internal/schedule/schedule.go:121-123 | before it, it can: midnight on 1 January of year 1 is missed from December of year 0 |
| CronParse.ReadPartExact | internal/schedule/schedule.go:240-275 | a comma part is accepted exactly when the grammar (star, number or range, optional positive step) derives it within bounds, and it has one reading |
| CronParse.PartBitsExact | internal/schedule/schedule.go:277-281 | the bits set are the arithmetic progression if and only if start + 2 * step is below 2^64 |
| CronParse.UpIsProgression | internal/schedule/schedule.go:277-281 | the intended bits are start + j * step up to the end |
| CronParse.HugeStepSetsExtraBits | internal/schedule/schedule.go:277-281 | a concrete step for which a bit outside the progression is set |
| CronParse.HugeStepFiresEarly | internal/schedule/schedule.go:240-282 | the minute field 59/9223372036854775807 also sets minute 57 |
| CronParse.SetBits | internal/schedule/schedule.go:277-281 | the 64-bit loop terminates, with and without wrap-around, and sets exactly the bits described |
| CronParse.ParsePart64 | internal/schedule/schedule.go:240-282 | each error return and each accepted reading of a part |
| CronParse.ParseField64 | internal/schedule/schedule.go:187-200 | a field is the union of its parts, rejected with any of them; an accepted mask has a bit from the lower bound on and none above the upper bound |
| CronParse.FieldMaskExact | internal/schedule/schedule.go:187-200 | a field is accepted if and only if every part is; bit v is set if and only if some part the grammar derives sets it |
| CronParse.ParseField | internal/schedule/schedule.go:202-210 | narrowing to 32, 16 or 8 bits loses nothing |
| CronParse.NormaliseDOW | internal/schedule/schedule.go:219-238 | the in-place rewriting of the weekday parts, part by part |
| CronParse.ParseDOW | internal/schedule/schedule.go:212-217 | the rewritten parts do not merge or split, and the mask has weekdays 0 to 6 only |
| CronParse.StandaloneSevenIsSunday | internal/schedule/schedule.go:229-230 | 7, with or without a step, means Sunday alone |
| CronParse.RangeToSevenIsSundayExactly | internal/schedule/schedule.go:219-238 | d-7, plain or stepped, is read as the range to 7 with 7 as Sunday if and only if d is 0 or the step passes over 7, and the step does not overflow; from 7 on it is rejected |
| CronParse.MondayToSundayHasNoSunday | internal/schedule/schedule.go:231-232 | the field 1-7 sets Monday to Saturday only, and 7-7 is an error |
| CronParse.Parse | internal/schedule/schedule.go:57-99 | a spec is accepted if and only if it is five readable words; then each mask has exactly the bits of its own word, day of month and day of week are unrestricted exactly when their words are a star, and the masks are ones `Next` can search |
| GoStrings.FieldsExactly | internal/schedule/schedule.go:60 | the words of a spec: white space in front is skipped, then comes the first word, up to the next white space, then the words of the rest |
| CronParse.WeekdayMaskExact | internal/schedule/schedule.go:212-217 | the weekday mask has bit v exactly when the rewritten word sets it |
| CronParse.MatchesByWords | internal/schedule/schedule.go:108-165 | a parsed schedule matches a minute exactly when its five words ask for its month, day, weekday, hour and minute, either day word being enough when neither is a star |
| CronWitness.NextMonday | internal/schedule/schedule.go:108-165 | `0 3 * * 1` asked at 2024-01-01 00:00, a Monday, fires at 03:00 of that day |
| CronWitness.NextThirteenth | internal/schedule/schedule.go:108-165 | `0 3 13 * *` asked at the same instant fires at 03:00 on 13 January and not before |
| Protocol.ParseKV | internal/marstek/protocol.go:306-322 | the loop fills the map token by token, later keys over earlier ones |
| GoStrings.SignedNumerals | internal/marstek/protocol.go:324-334 | what a number field reads as: plain and signed decimal numerals, and an error exactly when the value does not fit 64 bits |
| Protocol.SpacedToken | internal/marstek/protocol.go:306-322 | white space around a key and its value changes nothing that is stored |
| Protocol.EncodeRoundTrip | internal/marstek/protocol.go:306-322 | `parseKV` recovers any list of clean key-value pairs from its text |
| Protocol.BuildTimedDischargePayload | internal/marstek/protocol.go:76-117 | the string builder produces `cd=7` or `cd=20`, `md=0`, then for N from 1 to 5 the flag, start, end and watts of slot N under aN, bN, eN and vN, with watts kept in 0..800, 00:00 for a missing start and 23:59 for a missing end |
| Protocol.TimedPayloadText | internal/marstek/protocol.go:36-117 | the encoding that the round trips are about is that text, letter by letter |
| Protocol.ShortPayloadTexts | internal/marstek/protocol.go:43-152 | the other texts in full: `cd=10`, `cd=18,md=3`, `cd=17,md=0`, `cd=31,touchuan_disa=0` |
| Protocol.TimedPayloadExample | internal/marstek/protocol.go:76-117 | one whole text with missing times and watts out of range |
| Protocol.PayloadBeginnings | internal/marstek/protocol.go:36-64 | the beginning of a text tells a write to flash (`cd=7`, `cd=31`) from every other command |
| Protocol.CdRead | internal/marstek/protocol.go:36-64 | the cd value a reader of the text finds is 7 or 20, 10, 18, 17 or 31, by command |
| Protocol.TimedRoundTrip | internal/marstek/protocol.go:76-117 | reading a timed-discharge payload back gives every slot's flag, times and watts, for all trimmed comma-free times |
| Protocol.CommandRoundTrip | internal/marstek/protocol.go:119-152 | so does every command the controller can publish |
| Protocol.EqualPayloads | internal/controller/slotwrite.go:76-81 | two payload texts are equal if and only if the commands are, and none is empty |
| Protocol.NormaliseTimeKeepsClean | internal/marstek/protocol.go:281-304 | padding a clean time gives a clean time that is not empty |
| Protocol.NormaliseTimeIdempotent | internal/marstek/protocol.go:281-304 | padding twice is padding once |
| Protocol.NormaliseTimeIs | internal/marstek/protocol.go:281-304 | a single-character hour or minute gets a 0 in front, everything else stays, and an empty time becomes 00:00 |
| Protocol.PadKeepsValue | internal/marstek/protocol.go:291-303 | padding never changes the number an hour or minute reads as |
| Protocol.ParsedStatusIsClean | internal/marstek/protocol.go:220-263 | whatever text arrives, the slot times of the parsed status are trimmed and comma-free |
| Report.ReportReadsBack | internal/marstek/protocol.go:154-263 | every status is read back from a report that follows the documented key table, field by field, for all 64-bit numbers and clean times |
| Protocol.UnknownTokenIgnored | internal/marstek/protocol.go:220-263 | a token with an unknown key, or none, changes nothing that is read, whatever came before it |
| Protocol.SurplusFlagExactly | internal/marstek/protocol.go:249-250 | for every payload, surplus feed-in reads as enabled if and only if `tc_dis` is absent, not a number, or 0 |
| Protocol.EmptyStatusFeedsIn | internal/marstek/protocol.go:220-263 | the empty payload reads as all zeros, with surplus feed-in enabled |
| Protocol.WriteChangesOneSlot | internal/controller/slotwrite.go:46-57 | a written payload decodes to the reported schedule, normalised, with only the controlled slot replaced |
| Protocol.NormaliseTimeKeepsExactly | internal/marstek/protocol.go:281-304 | padding leaves a time alone if and only if it is not empty and has no single-character hour or minute |
| Protocol.CarriedExactly | internal/marstek/protocol.go:265-279 | a slot carried from a status into a write is written exactly as reported if and only if its times are padded and its watts are in 0..800 |
| Protocol.RaggedSlotIsChanged | internal/marstek/protocol.go:265-279 | a slot reported as 0:0 to 23:59 at 900 W is written as 00:00 to 23:59 at 800 W |
| Config.ValidTimeIsClean | internal/config/config.go:316-325 | every configured slot time that validation accepts survives the wire |
| Config.ValidTimesExactly | internal/config/config.go:316-325 | of all pairs of numbers, exactly those up to 23:59 are accepted as a time |
| Config.PaddingKeepsValidity | internal/config/config.go:316-325 | padding does not change whether a time is accepted; only the empty one becomes a time |
| Config.DefaultsAreValid | internal/config/config.go:112-178 | the shipped configuration, every number written out, passes validation |
| Config.AuthorityCooldown | internal/controller/slotwrite.go:94-106 | twice the longer of control interval and poll timeout, 30 s when both are not positive |
| Config.RearmCooldown | internal/controller/authority.go:179-185 | the longest of a minute, four control intervals and four poll timeouts |
| Config.FailureCooldown | internal/controller/topcharge.go:173-182 | the longest of a minute, two control intervals and two poll timeouts |
| Config.NearZeroOutputWatts | internal/controller/helpers.go:108-117 | 20 W below a least output of 40 W, half the least output from there on |
| Config.SlotIndex | internal/controller/slotwrite.go:9-18 | always one of the five slots, the configured one for 1 to 5 |
| Policy.Round | internal/controller/highsoc.go:70-77 | nearest integer, halves away from zero |
| Policy.SmoothedBetween | internal/controller/helpers.go:14-22 | the moving average stays between its last value and the sample |
| Policy.ApplyRamp | internal/controller/helpers.go:24-50 | moves towards the target and never past it, by at most the configured limit; short of the target by exactly the limit; a limit of 0 is none |
| Policy.ClampTarget | internal/controller/highsoc.go:57-68 | gives 0 or a power the device can follow, leaves such powers alone, and 0 for no demand |
| Policy.ClampTargetIsLeast | internal/controller/highsoc.go:57-68 | no power the device can follow, 0 included, is nearer above the demand; beyond the range it is the greatest one |
| Policy.ClampTargetMonotone | internal/controller/highsoc.go:57-68 | more demand never lowers the clamped target |
| Policy.TargetLeavesBias | internal/controller/highsoc.go:70-106 | a device that follows the target leaves the import bias on the meter (none from the net-zero stage on) up to rounding; less only at the least output, more only at the greatest; the target is 0 exactly without demand, up to rounding |
| Policy.TargetFollowsImport | internal/controller/highsoc.go:70-77 | more import never lowers the target |
| Policy.StagesAscend | internal/controller/highsoc.go:79-106 | each high-SoC stage asks for at least what the one below asks; the aggressive one asks for the larger of zero-bias target and solar trace, the max one for the maximum |
| Policy.SolarTrace | internal/controller/highsoc.go:97-100 | within half a watt of the factor times the sum of both solar inputs |
| Policy.Target | internal/controller/highsoc.go:79-106 | every target is 0 or within the configured range |
| Policy.RampedBetween | internal/controller/step.go:302-313 | ramp, export cut and snap together stay between command and target and commandable; exporting reductions go straight to the target |
| Policy.RampedExactly | internal/controller/step.go:302-313 | the ramped command in full: the target within one limit or when cutting an export, else one limit nearer, with the snaps from 0 to the minimum and from below it to 0 |
| Policy.DefaultRamp | internal/controller/helpers.go:24-50 | with the shipped limits 100 W becomes 250 W on the way to 600 W, and five more numbers |
| TopCharge.MachineIsHistory | internal/controller/topcharge.go:31-164 | over every sequence of cycles, resets and blocks, the machine is engaged and blocked exactly as the observed history says, and each counter is the length of the trailing run of its evidence since the last change |
| TopCharge.CycleImplements | internal/controller/topcharge.go:31-141 | one cycle keeps machine and history together: engaged exactly when the last N unblocked cycles were eligible, left exactly when the first exit in priority order fills its window |
| TopCharge.OutSinceFailure | internal/controller/topcharge.go:111-122 | while out since a failure, the window holds the latest cycles without a gap, all past the deadline |
| TopCharge.ReentryNeedsFreshRun | internal/controller/topcharge.go:111-122 | after a failure the regime is entered only when the last operations on the machine, as many as the debounce asks for and without a gap, are eligible cycles past the cooldown |
| Runs.EveryInputRuns | internal/controller/controller.go:189-208 | every sequence of inputs leads to a run |
| Runs.RunsAreDetermined | internal/controller/controller.go:189-208 | and to only one |
| Runs.OneAttemptPerStep | internal/controller/step.go:335-342 | in every run a step attempts at most one publish; a refused one leaves command memory and every rate-limit stamp alone |
| Runs.AttemptFitsKind | internal/controller/authority.go:42-170 | a `cd=10`, `cd=18`, `cd=31` or charging-mode payload is only ever attempted for its own purpose |
| Runs.MemoryAgreesWithTrace | internal/controller/slotwrite.go:121-152 | in every reachable state the command is 0 or in range, its time is that of the latest accepted slot write, and a command that is not 0 is what that write has under the controlled slot, switched on at the configured times |
| Runs.EveryWriteIsInRange | internal/controller/slotwrite.go:20-57 | every accepted slot write disables the controlled slot with 0 W or enables it within the configured range, at the configured times |
| RunRates.StampIsLastSent | internal/controller/authority.go:93-95 | each rate-limit stamp is the time of the latest accepted publish of its kind |
| RunRates.FlashGuard | internal/controller/authority.go:69-78 | without leave for flash writes no accepted text begins with `cd=7` or `cd=31`; `cd=7` is normal control under the persist option and nothing else, `cd=31` needs the enforcement policy, every other slot write begins with `cd=20` |
| RunRates.SurplusWritesSpaced | internal/controller/authority.go:79-91 | accepted `cd=31` writes are at least the configured interval apart, 6 h if it is not positive |
| RunRates.RestartsSpaced | internal/controller/authority.go:317-324 | accepted control-loop restarts are at least their interval apart |
| RunRates.RearmsSpaced | internal/controller/authority.go:179-200 | accepted re-arm disables are at least max(twice the authority cooldown, 1 minute) apart |
| RunRates.PendingRearm | internal/controller/authority.go:213-219 | while a re-arm is pending the command is 0 and its start is the time of the disable, the latest accepted re-arm write |
| RunRates.ReenableAnswersDisable | internal/controller/authority.go:232-255 | each accepted re-enable answers exactly one earlier disable, at least one control interval older |
| RunRates.NoNormalControlWhileRearming | internal/controller/authority.go:114-123 | normal control is never reached with a re-arm pending |
| RunLadder.OutputMove | internal/controller/authority.go:99-170 | how one pass through the output check moves the blocked-cycle counter and the enable record |
| RunLadder.StepMoves | internal/controller/step.go:18-103 | how one step moves them, whatever its route |
| RunLadder.CounterIsBlockedSteps | internal/controller/escalation.go:18-31 | the counter is the number of blocked steps since the evidence was last cleared |
| RunLadder.EnableOnRecord | internal/controller/authority.go:166-168 | an enable on record was accepted, and after the last restart |
| RunLadder.EnableIsRecorded | internal/controller/authority.go:166-168 | each accepted `cd=18` or re-arm write puts an enable attempt on record, with its own time |
| RunLadder.PendingIsLastSent | internal/controller/slotwrite.go:108-119 | a pending payload is the latest accepted publish, stamped with its time |
| RunLadder.RestartHasEvidence | internal/controller/authority.go:279-345 | every control-loop `cd=10` has both opt-ins, smoothed import above the bias, the required blocked steps with nothing clearing them in between, and an accepted enable or re-arm write since the last one |
| RunLadder.StuckAsWantedBlocksExactly | internal/controller/authority.go:124-138 | an output stuck on a slot that the controller accepts as wanted counts as blocked if and only if the raw reported times are the configured ones |
| RunLadder.RaggedReportNeverBlocks | internal/controller/authority.go:132-138 | a slot reported as 0:0 for 00:00 is accepted as wanted and never counts as blocked |
| RunLadder.StuckAsWantedCountsExactly | internal/controller/authority.go:124-140 | over runs: such a step is counted exactly then; otherwise the ladder starts over and the step publishes nothing but normal control |
| RunLiveness.PendingFitsMemory | internal/controller/slotwrite.go:108-130 | in every reachable state a pending slot write is what the command memory says, and disables the slot while a re-arm is pending |
| RunLiveness.StuckStepAnswered | internal/controller/authority.go:139-170 | one stuck step after k others: counted if k is 0, else answered by the disable of an open re-arm, else by a due restart, else by `cd=18` or its awaited echo, whatever the opt-ins, the grid and the broker |
| RunLiveness.EveryStuckStepAnswered | internal/controller/authority.go:139-170 | from a cleared ladder, every step from the second on of a stuck output is so answered, across accepted restarts |
| RunLiveness.LadderIsPrompt | internal/controller/authority.go:279-345 | with every publish accepted, a stuck step sends `cd=10` if and only if it is at least the max(3, N)-th since the ladder was cleared, the restart is permitted, and no re-arm is open that goes first |
| RunRearm.DisableIsPrompt | internal/controller/authority.go:187-230 | from a cleared ladder, the second stuck step with the full-SoC signature and no re-arm in the cooldown publishes the disable |
| RunRearm.CandidateStepExactly | internal/controller/authority.go:114-123 | with a re-arm pending, a step with the signature waits while the disable is younger than one control interval and otherwise re-enables |
| RunRearm.ReenableIsPrompt | internal/controller/authority.go:232-264 | the first step with the signature at least one control interval after an accepted disable re-enables the slot for its own demand |
| RunRearm.ReenableCommandsDemand | internal/controller/authority.go:272-277 | every re-enable is for the demand of its own step; the power remembered at the disable is never used |
| Readings.StuckExactly | internal/controller/authority.go:103-138 | a stuck step on the fields: demand, the slot reported letter by letter as wanted for it, and no more output than sun; blocked if power is commanded as well |
| Readings.CandidateOnFields | internal/controller/authority.go:172-177 | the full-SoC signature on the fields: demand at 100 % with at most 20 W, or half the least output, given |
| Readings.LadderGuardsOnTrace | internal/controller/authority.go:187-324 | when a restart is allowed and a re-arm open, on the configuration, the fields and the latest accepted `cd=10` and disable of the trace |
| Readings.DueStepExactly | internal/controller/authority.go:279-287 | the restart is due on the third step or the configured one, whichever is later |
| Readings.EnableEchoHeardExactly | internal/controller/authority.go:124-131 | a step that goes on and publishes nothing drops an awaited `cd=18` exactly when, with demand, the battery contributes or both outputs report enabled on a slot that is not armed |
| RunPolicy.FloorIsHistory | internal/controller/step.go:266-281 | in every run the floor is active exactly from a charge at most the margin above 100 - DoD (or at most the fallback level without a DoD) until one the hysteresis higher; a step past the device settings idles exactly then |
| RunPolicy.FloorHolds | internal/controller/step.go:266-281 | the floor holds from a status at or below it until the first one at its own resume level, even when the DoD changes |
| RunPolicy.NoDischargeBelowFloor | internal/controller/step.go:66-79 | until then nothing is published that enables the controlled slot or an output or restarts the device |
| RunPolicy.ResumeEndsFloor | internal/controller/step.go:276-279 | at the resume level the step is past the floor |
| RunPolicy.SignalWithinSamples | internal/controller/helpers.go:14-22 | in every run the smoothed signal stays within whatever bounds the samples stayed in |
| RunPolicy.SignalSettles | internal/controller/helpers.go:14-22 | the first sample starts the signal; n samples of one power shrink the distance to it by (1 - alpha)^n |
| RunPolicy.TargetOfStep | internal/controller/step.go:81-95 | the target of every step is that of its stage, status and signal, for the source of its sample |
| RunPolicy.StepAimsAtBias | internal/controller/highsoc.go:70-106 | in every run, below the aggressive stage, following the target of a metered step leaves the bias on the meter up to rounding and range |
| RunPolicy.HoldTimeHolds | internal/controller/step.go:324-328 | within the hold time of the latest accepted slot write normal control changes the command only downwards, and only while exporting without leave |
| RunPolicy.ExportIsCutAtOnce | internal/controller/step.go:302-345 | exporting without leave, a reduction of at least max(1, threshold) is written the same step, as exactly the clamped target in the controlled slot |
| RunPolicy.StageIsHistory | internal/controller/highsoc.go:41-55 | the stage is max if and only if some evaluated status reached the max threshold and none since fell below the aggressive one |
| RunFallback.FreshInputsDecide | internal/controller/step.go:105-243 | a step falls back exactly without a fresh grid sample, or with a dead status that could not be polled; freezes exactly when the status is merely stale; controls exactly on fresh inputs |
| RunFallback.FrozenStepKeepsAll | internal/controller/step.go:233-240 | a frozen step publishes nothing and changes nothing but the recorded grid source |
| RunFallback.DeviceSettingsFirst | internal/controller/step.go:52-64 | a step with a status stops at the charging mode exactly when it is wrong, and at surplus feed-in exactly when that is wrong, enforced, allowed and past its interval |
| Readings.SettingsOnTrace | internal/controller/authority.go:42-97 | the same with the interval measured from the latest accepted `cd=31` of the trace, 6 h if none is configured |
| RunFallback.StopsStop | internal/controller/fallback.go:12-79 | what a fallback, a step below the floor and a top-charge idle step publish switches the controlled slot off at 0 W, and unless refused leaves the command at 0 |
| RunPolicy.LowerStagesFollowStatus | internal/controller/highsoc.go:41-55 | below the max stage, export is allowed and the import bias is off exactly as the latest evaluated status says |
| Ramp.NeverPastTarget | internal/controller/step.go:302-313 | towards a constant target commands are monotone and never past it |
| Ramp.Converges | internal/controller/step.go:302-328 | where they can settle, they settle within ceil(distance / ramp) writes and stay |
| Ramp.SettlesExactly | internal/controller/step.go:302-328 | they ever settle if and only if the limit is off, or not below the delta threshold, or a snap around the minimum covers the way |
| Ramp.SmallRampStalls | internal/controller/step.go:315-322 | 5 W of ramp under a 10 W threshold leaves 100 W at 100 W for ever |
| Ramp.RampBounds | internal/controller/step.go:302-313 | n writes cover at most n ramp limits, and one minimum output more when the way begins or ends at 0 |
| Ramp.RampIsExact | internal/controller/step.go:302-313 | inside the range n writes cover exactly n limits, as long as whole limits are left and are not below the delta threshold |
| Ramp.WritesIsTight | internal/controller/step.go:302-328 | inside the range the target is not reached with fewer than ceil(distance / ramp) writes, and if every change is large enough to be written it is reached with exactly that many |
| Ramp.DefaultRampTakesFour | internal/controller/helpers.go:24-50 | with the shipped limits 100 W goes to 600 W by 250, 400 and 550 W |
| Ramp.FreeStepFollows | internal/controller/step.go:300-345 | past the hold time, not exporting, an accepted step commands exactly the next command |
| Ramp.ControlConverges | internal/controller/step.go:300-345 | in every run, n such steps towards one target leave the command between start and target, at most n limits and a snap further, exactly n limits inside the range while whole ones are left, settled if n covers the ramp and unsettled if the limits forbid it |
| Ramp.FreeStepWithinRamp | internal/controller/helpers.go:24-50 | one such step changes the command by at most one limit, but for the snap from 0 to the minimum and from below it to 0 |
| Ramp.NormalWritesExactly | internal/controller/step.go:300-345 | in every run normal control writes exactly when the ramped command differs by max(1, threshold) and the latest accepted slot write is older than the hold time, or the change is a cut while exporting; it then writes exactly the ramped command |
| Ramp.EveryChangeIsRamped | internal/controller/step.go:300-345 | in every run the command rises only within the ramp limit or by a re-enable, and short of 0 falls only within the limit or as a cut while exporting |
| RunIdle.IdleIsHistory | internal/controller/step.go:66-90 | in every run of the controller top-charge idle is engaged, blocked and counting exactly as its history of cycles, resets and fallbacks says |
| RunIdle.ActiveStageIdlesExactly | internal/controller/step.go:81-90 | a step with an active high-SoC stage engages top-charge idle if and only if the debounce is one sample and the cycle is eligible and unblocked |
| Readings.EvidenceOnFields | internal/controller/topcharge.go:184-205 | what counts as eligible, as lost pass-through and as import, on the reported fields, the two samples and the configuration |
| Readings.IdleChangesHaveReasons | internal/controller/topcharge.go:31-141 | in every run a step that starts top-charge idle saw a full device with sun or power passing through and no import; one that ends it fell back, was below the floor, in an active stage, or saw a reason to leave on the fields |
| Readings.OneSampleExit | internal/controller/topcharge.go:73-99 | with one-sample debounces, on the fields: it leaves exactly for such a reason, freely when the charge fell, else with the cooldown |
| Readings.ExitTakesItsSamples | internal/controller/topcharge.go:53-92 | the regime lasts while one reason to leave shows for fewer cycles in a row than its own debounce, and ends with the cycle that completes it |
| Readings.EntryTakesItsSamples | internal/controller/topcharge.go:111-122 | an unblocked machine engages with exactly the configured number of full cycles in a row |
| Readings.HighEntryLevelNeverIdles | internal/controller/step.go:81-90 | with two or more samples and an entry level not below the first high-SoC threshold, no step of any run engages top-charge idle |
| Readings.ShippedIdleNeverEngages | internal/config/config.go:158-167 | the shipped thresholds are of this kind, with and without surplus enforcement |
| RunWitness.SingleSampleIdlesAtOnce | internal/controller/step.go:81-90 | a concrete run whose first step is in the max stage and idles |
| RunWitness.RaggedOutputIsNeverRescued | internal/controller/authority.go:132-138 | runs of every length with a stuck output reported as 0:0, in which no step counts it or tries to rescue it |
| RunDay.DefaultFloors | internal/controller/step.go:266-281 | with the shipped margins: idle from 12 % down and on from 17 % up at 90 % DoD, 72 % and 77 % at 30 % DoD, 15 % and 20 % without a DoD |
| RunDay.FirstStep | internal/controller/step.go:18-103 | a concrete morning with the shipped configuration: 600 W of import ask for 550 W and get 150 W |
| RunDay.SecondStep | internal/controller/step.go:18-103 | a minute later 525 W of smoothed import over 150 W of output ask for 625 W and get 300 W |
| RunDay.ThirdStep | internal/controller/step.go:66-79 | at 12 % of charge the device is stopped |
| RunDay.TextsOfTheDay | internal/marstek/protocol.go:76-117 | the three published texts in full, with the user's slot padded and carried |
| RunIdle.FailureClears | internal/controller/topcharge.go:93-99 | ending by fallback or by one of the three failure exits clears the machine and starts the cooldown |
| RunIdle.FailureStartsAnew | internal/controller/topcharge.go:93-99 | after a failure the observed history starts anew, blocked until the deadline of that failure |
| RunIdle.ReentryIsFresh | internal/controller/topcharge.go:111-122 | in every run, every entry after a failure is by a full gapless run of eligible cycles, all past the cooldown of that failure |
| RunIdle.FailedIdleStaysOut | internal/controller/topcharge.go:111-122 | after a failure the regime is engaged only from such an entry on, so never before failure time plus max(authority cooldown, 1 minute) |
| RunSlots.WritesKeepOtherSlots | internal/controller/fallback.go:24-33 | in every run every slot write carries the other four slots as the latest status read reports them, normalised; only a fallback before any status has none to carry |
| RunSlots.OtherSlotKeptExactly | README.md:33-35 | in every write of every run another slot is written exactly as last reported if and only if its times are padded and its watts in range |
| RunSlots.RemembersLastRead | internal/controller/step.go:45-46 | the cached status is the latest one a step read |
| RunSlots.StepKeeps | internal/controller/slotwrite.go:46-57 | the same for one step, over all its publish sites |
| RunSlots.AttemptReadsBack | internal/marstek/protocol.go:76-117 | every publish attempt of every run reads back from its text as itself |
| RunSlots.FlashGuardByCd | internal/controller/authority.go:69-78 | the flash guard on the cd value that a reader of each accepted text finds |
| RunSlots.PendingTextIsPendingCommand | internal/controller/slotwrite.go:73-92 | comparing a candidate with the pending payload as texts or as commands is the same |
| RunEcho.StepPatient | internal/controller/authority.go:14-40 | no step attempts a remedy while its echo is awaited, and an accepted publish is booked with the status it was made on |
| RunEcho.PendingIsBooked | internal/controller/slotwrite.go:108-119 | in every reachable state a pending payload carries the receive time of the status that the latest accepted publish was made on |
| RunEcho.RemedyIsNotRepeatedInHaste | internal/controller/slotwrite.go:73-106 | a remedy that repeats the latest accepted, unanswered publish comes at least the authority cooldown later, or on another status than that publish if its kind looks at one |
| RunEcho.EchoRecognisedExactly | internal/controller/slotwrite.go:59-71 | a report of exactly the written slot is accepted as wanted if and only if the configured times are padded |
| RunEcho.RaggedTimeIsValid | internal/config/config.go:316-325 | validation lets 0:0 through |
| RunEcho.EchoedCommandIsLeftAlone | internal/controller/step.go:359-376 | in every run, a step that keeps the command on a device that echoes it publishes nothing if and only if the configured times are padded or the echo is still awaited |
| RunWrites.InputsUsed | internal/controller/step.go:105-243 | in every run a step works on the young meter sample, else the young plug sum, and on the young status, else the poll; it books publishes with the clock reading that judged the sample |
| RunWrites.AwaitedExactly | internal/controller/slotwrite.go:73-81 | an echo is awaited exactly when the latest accepted publish is that payload, nothing cleared it, it is younger than the cooldown, and no other status came in |
| RunWrites.StopsWriteExactly | internal/controller/authority.go:366-382 | in every run a wrong device setting is written unless awaited; an idle step disables the slot unless the device reports it disabled at the configured times, or that echo is awaited |
| RunWrites.FallbackWritesExactly | internal/controller/fallback.go:24-49 | a fallback publishes unless the status last read reports the slot disabled at the configured times with 0 W; it awaits nothing |
| RunWrites.CommandIsLeftAloneExactly | internal/controller/step.go:359-376 | normal control that keeps the command writes nothing exactly when the device reports the slot as commanded once padded, or the echo is awaited; else it writes the command again |
| TopCharge.TopChargeIdleMachine.Update | internal/controller/topcharge.go:31-141 | the counters, flag and deadline after one cycle |
| TopCharge.TopChargeIdleMachine.CountExits | internal/controller/topcharge.go:58-92 | the four exit counters and the exit due in the coded order |
| TopCharge.TopChargeIdleMachine.Reset | internal/controller/topcharge.go:143-164 | clears flag and counters, keeps the cooldown, tells whether the regime was active |
| TopCharge.TopChargeIdleMachine.BlockUntil | internal/controller/topcharge.go:166-182 | the new deadline |
| TopCharge.TopChargeIdleMachine.constructor | internal/controller/controller.go:161-170 | the initial machine |
| Escalation.EscalationMachine.Reset | internal/controller/escalation.go:18-25 | clears the evidence, keeps the restart stamp |
| Escalation.EscalationMachine.NoteBlockedCycle | internal/controller/escalation.go:27-31 | one more blocked cycle |
| Escalation.EscalationMachine.RecordEnableAttempt | internal/controller/escalation.go:33-37 | the attempt is on record |
| Escalation.EscalationMachine.RecordNuclearRestart | internal/controller/escalation.go:61-66 | stamps the restart and clears the evidence |
| Controller.Controller.constructor | internal/controller/controller.go:157-185 | the object starts in the initial state of every run |
| Controller.Controller.Step | internal/controller/step.go:18-103 | one step moves every field exactly as specified, and extends the history of the object to a longer run that ends in its state |
| Controller.Controller.Run | internal/controller/controller.go:189-208 | the loop takes one step for each tick and keeps that invariant |
| Controller.Controller.Regulate | internal/controller/step.go:45-78 | the part of a step after both inputs: floor, device settings, smoothing, idle below the floor |
| Controller.Controller.DischargeControl | internal/controller/step.go:81-102 | the part above the floor: stage, top-charge idle, blocked output, normal control |
| Controller.Controller.ReadGridSample | internal/controller/step.go:105-172 | a fresh primary sample, else a fresh fallback sample, else none; the source is recorded |
| Controller.Controller.UpdateSoCFloor | internal/controller/step.go:266-281 | the hysteresis of the SoC floor |
| Controller.Controller.Smooth | internal/controller/helpers.go:14-22 | the first sample starts the average, later ones move it |
| Controller.Controller.ComputeTarget | internal/controller/highsoc.go:79-106 | the stage follows the status and the target is that of the new stage |
| Controller.Controller.PublishAuthorityPayload | internal/controller/authority.go:10-40 | awaited, published or refused, with the fields and flags of each |
| Controller.Controller.RecordSuccessfulPublish | internal/controller/slotwrite.go:108-119 | the pending echo after an accepted publish |
| Controller.Controller.ClearPendingAuthorityPayload | internal/controller/slotwrite.go:83-92 | drops the pending payload only if it is the given one |
| Controller.Controller.RecordCommandedWatts | internal/controller/slotwrite.go:121-130 | command memory after a commanding publish |
| Controller.Controller.RecordReassertedCommand | internal/controller/slotwrite.go:132-140 | only the time moves |
| Controller.Controller.NoteIdleWithoutPublish | internal/controller/slotwrite.go:142-152 | only the watts go to 0 |
| Controller.Controller.EnsureDeviceConfig | internal/controller/authority.go:42-53 | charging mode 0 is echoed or remedied |
| Controller.Controller.EnsureSurplusFeedIn | internal/controller/authority.go:55-97 | the policy, flash and rate guards before a surplus write |
| Controller.Controller.MaybeEnsureOutputEnabled | internal/controller/authority.go:99-123 | no demand, pending re-arm, or diagnosis |
| Controller.Controller.DiagnoseOutput | internal/controller/authority.go:124-140 | clears the evidence, or counts a blocked cycle and escalates |
| Controller.Controller.EscalateOutput | internal/controller/authority.go:141-170 | re-arm, then restart, then output enable |
| Controller.Controller.ClearStuckOutputRearm | internal/controller/authority.go:266-270 | no re-arm is pending |
| Controller.Controller.MaybeStartStuckOutputRearm | internal/controller/authority.go:187-230 | the conditions of a disable and everything it records |
| Controller.Controller.MaybeCompleteStuckOutputRearm | internal/controller/authority.go:232-264 | waits a control interval, then re-enables and clears the re-arm |
| Controller.Controller.MaybeNuclearRestartRecovery | internal/controller/authority.go:279-357 | the guards of a restart in order, and what an accepted one records |
| Controller.Controller.EnsureControlledSlot | internal/controller/authority.go:366-382 | nothing when the slot matches, else one remedy |
| Controller.Controller.CommandIdle | internal/controller/fallback.go:53-79 | stops by a write, or forgets the command without one |
| Controller.Controller.LeaveRegimes | internal/controller/fallback.go:18-22 | top-charge idle is left with a cooldown if it was active, the ladder is cleared |
| Controller.Controller.Fallback | internal/controller/fallback.go:12-51 | leaves both regimes and disables the slot over the last known schedule |
| Controller.Controller.RampCommand | internal/controller/step.go:302-313 | the next command before suppression |
| Controller.Controller.PublishNormalControl | internal/controller/step.go:300-345 | suppressed by delta or hold time, or written |
| Controller.Controller.PublishCommand | internal/controller/step.go:330-346 | the slot write and the memory of it |
| Controller.Controller.SuppressOrReassert | internal/controller/step.go:359-376 | the last command is re-asserted when the reported slot differs |
| Controller.ObjectAgreesWithTrace | internal/controller/slotwrite.go:121-152 | in every state the object can reach, its command memory agrees with the trace of its accepted writes |
| StepEffects.DeviceConfigEffect | internal/controller/authority.go:42-53 | at most one attempt and its effect; if the step goes on, nothing but the echo was touched |
| StepEffects.SurplusEffect | internal/controller/authority.go:55-97 | the same; the stamp moves only with an accepted write |
| StepEffects.IdleEffect | internal/controller/fallback.go:59-79 | the step ends with command 0 or a refused publish |
| StepEffects.FallbackEffect | internal/controller/fallback.go:13-51 | the same for fallback |
| StepEffects.StartRearmEffect | internal/controller/authority.go:187-230 | a disable respects its cooldown and leaves a stamped pending re-arm with command 0 |
| StepEffects.CompleteRearmEffect | internal/controller/authority.go:232-264 | a re-enable needs a pending re-arm old enough and clears it |
| StepEffects.RestartEffect | internal/controller/authority.go:279-357 | a restart has both opt-ins and respects its interval; refused, it leaves the stamp |
| StepEffects.OutputEffect | internal/controller/authority.go:99-170 | a step that goes on to normal control has published nothing and has no re-arm pending |
| StepEffects.ReassertEffect | internal/controller/step.go:359-376 | a re-assert writes the command in memory and keeps it |
| StepEffects.NormalEffect | internal/controller/step.go:300-345 | a normal write commands what the memory then holds, within range |
| StepEffects.StepEffect | internal/controller/step.go:18-103 | every step makes at most one publish attempt, of a form fixed by its kind; accepted it moves exactly the stamps and memory of its kind, refused it moves none |
| StepShape.StepKinds | internal/controller/step.go:18-103 | how far a step got determines what it can have published |
| StepShape.StepSensed | internal/controller/step.go:18-103 | which steps move the floor, the stage, top-charge idle and the ladder, and how |
| StepShape.StepRoute | internal/controller/step.go:81-102 | a step that reaches the output check enters it with ladder, memory and re-arm of the step before |
| StepShape.StepSignal | internal/controller/helpers.go:14-22 | every step past the device settings moves the average by its own sample, and no other step moves it |

## Left out

- Daylight-saving zones: with changing offsets `time.Date` is not always later than its argument; the offset is fixed.
- Zone offsets that are not whole minutes: truncation to a minute is then not truncation of local time.
- `BitsSet`: exported for tests only.
- Error texts of the parser and of validation: an error is `None`.
- Loading of the environment: only the facts about an accepted configuration are used.
- `internal/mqttclient`, `internal/promclient`, `internal/controller/statussource.go`: I/O; their results are inputs of a step.
- The restart scheduler and the MQTT poller of `cmd`: goroutines around one call of `Next` or `Publish`; scheduled restarts are not in the trace of the control loop.
- Metrics, logging, warning throttles, the HTTP server and `Ready`: they do not influence control.
- The ticker and cancellation of the control loop: a run is any finite sequence of steps.
- Overflow of Go's int and Duration in the controller: status numbers and clock differences are unbounded integers; only the cron bit loop models 64-bit wrap-around.
- Floating point: samples are reals, so rounding of the moving average, infinities and NaN are not modelled.
- Text encoding: strings are sequences of characters, not of UTF-8 bytes, so invalid encodings are not modelled.
- `tools/marstek-probe`: diagnostic scripts.
