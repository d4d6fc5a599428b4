# Models and proofs for the device's firmware components

The firmware runs thermostats, automation rules and small device services on one board. This project
models the parts whose correctness is not visible from any one function and proves what they
promise, in Dafny. `dafny verify dfyconfig.toml` checks all of it.

## What is modelled

**Thermostats.** A thermostat drives one relay to heat and one to cool; several share the relays and a
pool of climate entities.

* `relay_claim.dfy`: one relay held by one thermostat, against anything else that may flip the same
  switch at any moment. Put-backs are paced, nothing short-cycles a relay across owners, and a pass leaves it
  where it is wanted as soon as the dwell in force allows.
* `hub_state.dfy` states what every operation of the hub does, `climate_hub.dfy` performs it in place,
  and `hub_arbitration.dfy`, `hub_mutators.dfy`, `hub_takeover.dfy` and `hub_runs.dfy` prove the
  allocator: claims and entities are never lost, a take-over always ends with the thermostat running, and
  after every mutator nobody waits that could start. `hub_relays.dfy` and `hub_lives.dfy` follow each relay
  through whole runs of the hub: none is ever cycled short, whichever thermostats hold it in turn.
  `hub_answers.dfy` says what a caller gets: who runs afterwards, whose documents change, and what is refused.
* `controller.dfy`, `controller_safety.dfy`, `controller_clock.dfy`, `controller_law.dfy` and
  `controller_runtime.dfy`: the control loop that composes claims, PWM, hysteresis, the PID and a
  calibration, over every run; `controller_answers.dfy` and `controller_demands.dfy` say which way it drives for
  which reading, what a command does, and how long a silent sensor is waited for. Its parts are `hysteresis.dfy`,
  `duty_cycler.dfy`, `sample_window.dfy`, `pid_core.dfy`, `relay_tuner.dfy` and `autotune.dfy`;
  `tuner_measures.dfy` says what a calibration measures in terms of its readings alone. `slugs.dfy` and
  `slug_words.dfy` are the keys of its presets.

**Rules.** `rule_machine.dfy`, `rule_invariants.dfy` and `rule_engine.dfy` are the re-entrant run machine:
a switch action may fire rules, and restart or stop the very run that plays it, to any depth; `rule_answers.dfy`
says when a trigger begins a run and which, what a turn does and what each timer waits for.
`rule_triggers.dfy` says when triggers fire. `cron_fields.dfy`, `cron_forms.dfy` and `cron_strings.dfy` print and
parse cron fields, `rule_names.dfy`, `rule_name_words.dfy`, `rule_storage.dfy` and `rule_files.dfy` re-establish
ids, names and files at boot, and `clock_catch_up.dfy` fires the seconds the clock passed.

**Small exact algorithms.** `loop_job.dfy` (the handshake between two tasks, every interleaving), `utf8.dfy` and
`panel_text.dfy` (UTF-8 against RFC 3629 and the rows of the panel), `jeefs_walk.dfy` and `jeefs_image.dfy` (files in
a board's EEPROM), `i2c_eeprom.dfy` (page writes to a chip that rolls over), `slot_file.dfy`, `dallas_slots.dfy`,
`dallas_edits.dfy`, `dallas_failed_load.dfy` and `dallas_scan.dfy` (the slots thermometers stick to, and the file that
keeps them).

## How it is built

Each component is a set of functions on values, which say what its operations do to its state, and a
class or methods with loops that do the same in place, each method ensuring that its state becomes what the
function says. The promises are lemmas about the functions, over all inputs and all runs. Outside
writers, failing writes and reads, bus scans and the order two tasks run in are inputs of the lemmas, so a
proof holds for all of them; so is the PID's effort in `ControllerSafety`, while the class runs its own
PID. Time is a count of milliseconds or seconds that
does not run back; temperatures, gains and duties are real numbers, absent where the code tests for NaN.

## Where the code does not do what it says

* The comment on the proportional term promises that it is continuous across the deadband's edge. With a
  deadband that reaches only below the target (`deadband_threshold_low` below 0, `deadband_threshold_high`
  0, both in range), a multiplier below 1 and a gain above 0 it is not: exactly on target the term takes the
  lower edge's offset, a whole step below what the smallest positive error gives. `PidCores.OneSidedJumps`
  states the step, `PidCores.DeadbandIsSmooth` that in range it happens for these tunings and no others.
* The comment in `assign_preset_keys` counts `PRESET_MAX_COUNT + 1` candidates. The unnumbered one can be the
  same as a numbered one; `Slugs.FirstMayRepeat` says exactly when. So one fewer is sure to differ; as one
  preset is without a key, that is still enough (`Slugs.SomeKeyIsFree`).
* The amplitude of a calibration is called a mean over the swings. A run that finishes has measured one swing: it
  stops at the sixth switch of its relay, when three pairs of peaks leave one difference to average. Where the
  first reading lies below the target by more than the band, that difference is between the peaks of the third
  and the sixth phase, which are no neighbours (`TunerMeasures.OneSwing`,
  `TunerMeasures.FinishedRunMeasuresItsReadings`).
* A device keeps its slot across reboots, but not in memory across a boot that cannot read the slot file: its
  slots are numbered by the bus until the next boot. `DallasFailedLoads.AFailedLoadMoves` gives an input,
  `DallasFailedLoads.BootKeepsExactly` the exact condition, and `DallasSlots.KnownDeviceSticks` shows that the
  file, and every later boot that reads it, still has the device where it was.

## Model

| member | source | states |
|---|---|---|
| RelayClaims.Requested | components/climate_hub/relay_claim.cpp:24-47 | After every pass the claim agrees with its switch, a waiting or counted move implies one already undone, and clock readings stay in the past. |
| RelayClaims.ForcedOff | components/climate_hub/relay_claim.cpp:120-142 | Unpaced, the relay is open afterwards whatever the claim remembers and whoever moved it; paced, it stays closed only while a put-back waits. |
| RelayClaims.PacedStep | components/climate_hub/relay_claim.cpp:24-118 | One event (flip, pass, paced off, new dwell) keeps the pacing invariant, and a put-back lands on the demand at least 10 s after the one before. |
| RelayClaims.PutBacksArePaced | components/climate_hub/relay_claim.cpp:49-118 | Over a whole run, every put-back lies 10 s after every earlier one. |
| RelayClaims.PacingHolds | components/climate_hub/relay_claim.cpp:24-118 | From a claim past its first look at a demand it has reached: under any interleaving of flips and passes any two put-backs are at least PUT_BACK_FLOOR_MS apart. |
| RelayClaims.MoveIsUndone | components/climate_hub/relay_claim.cpp:49-82 | The first move in a quiet stretch is undone at once; a later one starts a wait that ends at the first pass after its dwell. |
| RelayClaims.LifeStep | components/climate_hub/relay_claim.cpp:24-47 | Nothing outside moving it: a claim keeps remembering when its contact last opened and closed, and closes it only after min_off, opens it in a pass only after min_on. |
| RelayClaims.ClaimsAreTruthful | components/climate_hub/climate_hub.cpp:1105-1134 | Over any sequence of claims, passes, cut-outs, Saves, take-overs and releases, claim and history remember what really happened to the contact. |
| RelayClaims.NeverShortCycles | components/climate_hub/relay_claim.cpp:24-189 | Over any such sequence, whoever the owners are, the relay closes only once open (or the device up) for the min_off in force, and a pass opens it only once closed for min_on. |
| RelayClaims.DemandIsFollowed | components/climate_hub/relay_claim.cpp:24-47 | The dual of never short-cycling, over any such sequence: a pass leaves the relay where it is wanted exactly when it was there already or has been the other way for the dwell in force, and otherwise says which dwell it waits for. |
| RelayClaims.DwellIsTheLastGiven | components/climate_hub/relay_claim.cpp:11-14 | Over any such sequence the dwell in force is the one last given, with the claim, a take-over or a Save. |
| RelayClaims.CutOutOpens | components/climate_hub/relay_claim.cpp:120-142 | Over any such sequence a cut-out, paced or not, and a release leave the contact open at once, and a release hands its time on. |
| RelayClaims.MovesAreCounted | components/climate_hub/relay_claim.cpp:49-98 | Under any interleaving, the moves counted are the passes that found the relay away from its demand with nothing waiting. |
| RelayClaims.ContestedMeansFiveMoves | components/climate_hub/relay_claim.cpp:83-111 | Contested exactly from the fifth such move on, until ten minutes after the last put-back. |
| RelayClaims.PutBackIsRemembered | components/climate_hub/relay_claim.cpp:49-81 | Whatever is wanted, a put-back is remembered, so the next move waits. |
| RelayClaims.FirstLookCountsNothing | components/climate_hub/relay_claim.cpp:144-165 | What moved a relay before its thermostat's first look is counted against nobody. |
| RelayClaims.ResumedRemembers | components/climate_hub/relay_claim.cpp:144-173 | What a claim resumes from is what it says of its last switching. |
| RelayClaims.RelayClaim.constructor | components/climate_hub/relay_claim.cpp:144-160 | A new claim knows nothing yet. |
| RelayClaims.RelayClaim.SetDwell | components/climate_hub/relay_claim.cpp:11-14 | Only the two dwell times change. |
| RelayClaims.RelayClaim.ForgetMoves | components/climate_hub/relay_claim.cpp:162-165 | The moves counted and the first one undone are forgotten, nothing else. |
| RelayClaims.RelayClaim.Settle | components/climate_hub/relay_claim.cpp:100-105 | A waiting put-back is over, its time noted. |
| RelayClaims.RelayClaim.Apply | components/climate_hub/relay_claim.cpp:175-189 | The switch is driven, the time of the switching noted, a waiting put-back settled. |
| RelayClaims.RelayClaim.SettleMove | components/climate_hub/relay_claim.cpp:49-81 | What becomes of a move from elsewhere: taken over when wanted and its dwell is over, put back the first time, and then left to wait or taken as it is. |
| RelayClaims.RelayClaim.Request | components/climate_hub/relay_claim.cpp:24-47 | Claim and switch become what the specification of a pass says, and agree on the result. |
| RelayClaims.RelayClaim.ForceOff | components/climate_hub/relay_claim.cpp:120-142 | Claim and switch become what the specification of a cut-out says; unpaced the switch is off. |
| RelayClaims.RelayClaim.Resume | components/climate_hub/relay_claim.cpp:144-152 | A claim on a relay known before carries on from its last switching. |
| RelayClaims.RelayClaim.SetOwner | components/climate_hub/relay_claim.cpp:154-160 | Under another owner the switching state is kept and the moves are forgotten. |
| HubArbitration.StartsUnlessBlocked | components/climate_hub/climate_hub.cpp:1207-1231 | With the books right, a start fails exactly when the sensor or a relay is missing, another thermostat holds a relay it names, or no entity is free. |
| HubArbitration.LetGoDoes | components/climate_hub/climate_hub.cpp:1128-1134 | Claims let go are gone, their relays open and noted as freed; every other claim is untouched. |
| HubArbitration.StoppedDoes | components/climate_hub/climate_hub.cpp:1266-1279 | A stop frees the entity and exactly the relays the thermostat held. |
| HubArbitration.StartedDoes | components/climate_hub/climate_hub.cpp:1086-1120 | A start claims exactly the relays named and takes one entity, touching no other claim. |
| HubArbitration.RestartedDoes | components/climate_hub/climate_hub.cpp:1237-1264 | A restart keeps the claims still named, claims the new ones and lets the others go. |
| HubArbitration.FailedStart | components/climate_hub/climate_hub.cpp:1207-1220 | A start that is refused claims nothing and leaves every claim as it was. |
| HubArbitration.StopKeepsBooks | components/climate_hub/climate_hub.cpp:1266-1279 | Claim bookkeeping survives a stop. |
| HubArbitration.StartKeepsBooks | components/climate_hub/climate_hub.cpp:1086-1120 | Claim bookkeeping survives a start. |
| HubArbitration.RestartKeepsBooks | components/climate_hub/climate_hub.cpp:1237-1264 | Claim bookkeeping survives a restart. |
| HubArbitration.StopForgetsNone | components/climate_hub/climate_hub.cpp:1122-1134 | Whoever waits for a relay or an entity a stop frees is due to be tried. |
| HubArbitration.TryKeeps | components/climate_hub/climate_hub.cpp:1140-1172 | Trying one waiter keeps the books, the links and the pool. |
| HubArbitration.SweepRelaysKeeps | components/climate_hub/climate_hub.cpp:1140-1160 | Trying every waiter on a freed relay excuses each of them. |
| HubArbitration.SweepEntitiesKeeps | components/climate_hub/climate_hub.cpp:1160-1172 | Then trying those that wait for an entity excuses each of them, or no entity is free. |
| HubArbitration.ClosingSettles | components/climate_hub/climate_hub.cpp:1140-1192 | The end of a mutator leaves nobody waiting that could start. |
| HubMutators.AddedKeeps | components/climate_hub/climate_hub.cpp:507-524 | A created thermostat leaves the hub good, started or noted as waiting. |
| HubMutators.ReplacedKeeps | components/climate_hub/climate_hub.cpp:612-660 | A Save leaves the hub good, whatever it changes about the relays named and whether it can run on. |
| HubMutators.RemovingKeeps | components/climate_hub/climate_hub.cpp:662-686 | A removal leaves the hub good and the waiters tried. |
| HubMutators.DisablingKeeps | components/climate_hub/climate_hub.cpp:688-708 | A disable leaves the hub good and the waiters tried. |
| HubTakeOver.SavableIsClear | components/climate_hub/climate_hub.cpp:969-1041 | What the check before a Save lets through shares no relay with an enabled thermostat. |
| HubTakeOver.StoredStaysExclusive | components/climate_hub/climate_hub.cpp:1023-1041 | So storing it keeps "no two enabled thermostats name one relay". |
| HubTakeOver.DroppedKeeps | components/climate_hub/climate_hub.cpp:709-787 | Disabling every waiter that names a wanted relay ends, leaves the hub good and no reserver. |
| HubTakeOver.HandOverDoes | components/climate_hub/climate_hub.cpp:1194-1205 | Handing over moves exactly the relays both name to the new owner, as they are. |
| HubTakeOver.HoldersTakenKeeps | components/climate_hub/climate_hub.cpp:709-787 | Stopping every holder ends, with every relay wanted either handed over or let go and the books right. |
| HubTakeOver.TakerStarts | components/climate_hub/climate_hub.cpp:1207-1231 | After that the start cannot fail. |
| HubTakeOver.TakeOverRuns | components/climate_hub/climate_hub.cpp:688-786 | A take-over not refused ends with the thermostat running, nobody waiting that could start, and every relay it names as the holder left it. |
| HubTakeOver.TakeOverClear | components/climate_hub/climate_hub.cpp:688-786 | And no other enabled thermostat names one of its relays. |
| HubRuns.ConservingMeans | components/climate_hub/climate_hub.cpp:1174-1192 | "Every waiter is blocked" is the same as "no start would serve any waiter". |
| HubRuns.BootIsGood | components/climate_hub/climate_hub.cpp:213-251 | Boot leaves the hub good whatever the files name, even two enabled thermostats on one relay. |
| HubRuns.CreatingKeeps | components/climate_hub/climate_hub.cpp:470-524 | create keeps books, pool and exclusiveness and closes no relay. |
| HubRuns.UpdatingKeeps | components/climate_hub/climate_hub.cpp:526-565 | update keeps them. |
| HubRuns.EnablingKeeps | components/climate_hub/climate_hub.cpp:688-786 | set_enabled keeps them, with and without take-over. |
| HubRuns.RemovingStaysExclusive | components/climate_hub/climate_hub.cpp:662-686 | remove keeps them. |
| HubRuns.StepKeeps | components/climate_hub/climate_hub.cpp:470-786 | Every mutator, and every control pass or outside writer in between, keeps them. |
| HubRuns.EveryRunIsGood | components/climate_hub/climate_hub.cpp:470-786 | Over any sequence of mutators: nobody waits that could start, each claim's owner runs and names it, each running thermostat holds exactly what it names, no entity is lost, exclusiveness is kept. |
| HubRuns.EveryRunFromBoot | components/climate_hub/climate_hub.cpp:177-251 | The same from any set of files on. |
| HubRelays.LetGoIsLife | components/climate_hub/climate_hub.cpp:1128-1134 | Letting go of a claim that has been resumed, as every claim of a run is, is the release step in each relay's life. |
| HubRelays.ClaimingIsLife | components/climate_hub/climate_hub.cpp:1086-1120 | Claiming is the claim step, resumed from the relay's history. |
| HubRelays.KeepingIsLife | components/climate_hub/climate_hub.cpp:1106-1118 | A relay kept across a Save only gets its new dwell. |
| HubRelays.TakeOverIsLife | components/climate_hub/climate_hub.cpp:709-787 | A take-over is one hand-over step in the life of a relay both name: neither switched nor relieved of its dwell. |
| HubLives.StoppedLives | components/climate_hub/climate_hub.cpp:1266-1279 | A stop takes every relay of the hub on through its life by gentle steps: cut out, let go, or left alone. |
| HubLives.RestartingLives | components/climate_hub/climate_hub.cpp:1237-1264 | So does a Save of a running thermostat, for relays kept, new, let go and untouched. |
| HubLives.ClosingLives | components/climate_hub/climate_hub.cpp:1140-1192 | So do the sweeps at the end of a mutator, over whatever waiters they start. |
| HubLives.MutatorLives | components/climate_hub/climate_hub.cpp:470-1041 | So does every mutator, take-overs included, for every relay at once and in any state of the hub. |
| HubLives.EveryRelayLives | components/climate_hub/climate_hub.cpp:470-1279 | Over every run from boot, mutators and control passes in any order, what an observer sees of each contact is the story of one life. |
| HubLives.NoRelayIsCycledShort | components/climate_hub/climate_hub.cpp:1086-1279 | So anywhere in the hub only a pass closes a relay, once open (or the device up) for the min_off of the claim then on it, and a pass that drives it opens it only after its min_on, whoever held it before. |
| HubLives.DemandIsFollowedEverywhere | components/climate_hub/climate_hub.cpp:470-786 | Beside it for every relay of the hub: a pass that drives it leaves it where it is wanted unless the dwell in force, counted across owners, is still running. |
| HubAnswers.EnableAnswers | components/climate_hub/climate_hub.cpp:688-786 | set_enabled(true) of a thermostat that does not run is refused exactly for a sensor not in °C, or a rival it may or can not take over from; then nothing changes, and an unasked take-over names a rival. Else rivals are disabled, stopped and reported, nobody else's document changes and nobody else stops, and it runs exactly if sensor, relays and an entity are there. |
| HubAnswers.DisableAnswers | components/climate_hub/climate_hub.cpp:688-708 | set_enabled(false) stops it, opens its relays, and leaves every other document and runner. |
| HubAnswers.SavableMeans | components/climate_hub/climate_hub.cpp:969-1041 | The check before a Save lets through exactly a sensor not known to be in another unit and no other enabled thermostat naming one of its relays; a conflict names such a rival, a running one if there is one. |
| HubAnswers.WiredMeans | components/climate_hub/climate_config.cpp:59-68 | A document has a relay to drive, and no relay for both directions. |
| HubAnswers.CreateAnswers | components/climate_hub/climate_hub.cpp:470-524 | create: accepted exactly when; then stored as sent, running exactly if it can, and nobody else stops. |
| HubAnswers.UpdateAnswers | components/climate_hub/climate_hub.cpp:526-660 | update: accepted exactly when; then stored as sent, running exactly if it can with the entity it has or a free one, its relays open otherwise, and nobody else stops. |
| HubAnswers.RestoreAnswers | components/climate_hub/climate_hub.cpp:567-610 | restore: an update of the thermostat a backup names, or its creation. |
| HubAnswers.CodesAreTrue | components/climate_hub/climate_hub.cpp:470-686 | The code of a refusal says what is so: the document, the id, a name or rival, the write, or a full store. |
| HubAnswers.SavableExactly | components/climate_hub/climate_hub.cpp:969-1041 | The same without any assumption on the files: what shares with a rival a relay it does not hold itself. |
| HubAnswers.RemoveAnswers | components/climate_hub/climate_hub.cpp:662-686 | remove: gone from store and claims, its relays open, and nobody else stops. |
| HubAnswers.RefusedChangesNothing | components/climate_hub/climate_hub.cpp:470-786 | Every refused call leaves the hub as it was. |
| HubAnswers.WarningIsTrue | components/climate_hub/climate_hub.cpp:1086-1120 | The reason noted for a thermostat that cannot start is so, relay and holder included. |
| HubAnswers.StartersAreListed | components/climate_hub/climate_hub.cpp:1140-1172 | The answer lists exactly the waiters that started. |
| ClimateHubs.ClimateHub.constructor | components/climate_hub/climate_hub.cpp:177-251 | Boot: documents loaded, each enabled one started in order; the hub is good afterwards. |
| ClimateHubs.ClimateHub.AcquireClaims | components/climate_hub/climate_hub.cpp:1086-1120 | Claims every relay named, or none; why it was refused. |
| ClimateHubs.ClimateHub.LetGoOf | components/climate_hub/climate_hub.cpp:1128-1134 | One claim let go: relay open, last switching remembered, relay freed. |
| ClimateHubs.ClimateHub.LetGoAll | components/climate_hub/climate_hub.cpp:1248-1254 | All claims of a set, one after the other. |
| ClimateHubs.ClimateHub.ReleaseClaims | components/climate_hub/climate_hub.cpp:1122-1126 | All claims of an owner. |
| ClimateHubs.ClimateHub.NoteWaiting | components/climate_hub/climate_hub.cpp:1233-1235 | The reason a thermostat waits, or none once it runs. |
| ClimateHubs.ClimateHub.Start | components/climate_hub/climate_hub.cpp:1207-1231 | Sensor, entity, claims, in that order; what a refused one leaves. |
| ClimateHubs.ClimateHub.Stop | components/climate_hub/climate_hub.cpp:1266-1279 | Relays opened and let go, entity freed. |
| ClimateHubs.ClimateHub.Restart | components/climate_hub/climate_hub.cpp:1237-1264 | A Save of a running thermostat: carries on, or stops and says why. |
| ClimateHubs.ClimateHub.StartOnFreedRelays | components/climate_hub/climate_hub.cpp:1140-1160 | The waiters on freed relays, in order. |
| ClimateHubs.ClimateHub.StartOnFreedEntities | components/climate_hub/climate_hub.cpp:1160-1172 | The waiters for an entity, while one is free. |
| ClimateHubs.ClimateHub.StartWaiters | components/climate_hub/climate_hub.cpp:1140-1172 | Both, and who was started. |
| ClimateHubs.ClimateHub.Close | components/climate_hub/climate_hub.cpp:1183-1192 | The end of every mutator: waiters tried, freed relays announced. |
| ClimateHubs.ClimateHub.Add | components/climate_hub/climate_hub.cpp:507-524 | A new document stored and started or noted. |
| ClimateHubs.ClimateHub.Replace | components/climate_hub/climate_hub.cpp:612-660 | A document overwritten: stopped, restarted, started or noted. |
| ClimateHubs.ClimateHub.Create | components/climate_hub/climate_hub.cpp:470-505 | The checks of create, then add; keeps what every mutator keeps. |
| ClimateHubs.ClimateHub.Update | components/climate_hub/climate_hub.cpp:526-565 | The checks of update, then replace. |
| ClimateHubs.ClimateHub.Restore | components/climate_hub/climate_hub.cpp:567-610 | A backup taken as an update or a create. |
| ClimateHubs.ClimateHub.Remove | components/climate_hub/climate_hub.cpp:662-686 | Stopped, forgotten, waiters tried. |
| ClimateHubs.ClimateHub.CheckSavable | components/climate_hub/climate_hub.cpp:1023-1041 | Refused exactly when another enabled thermostat names a relay, first the holder, then a waiter. |
| ClimateHubs.ClimateHub.FindReserver | components/climate_hub/climate_hub.cpp:984-1000 | The first enabled waiter that names one of the relays. |
| ClimateHubs.ClimateHub.HandOutput | components/climate_hub/climate_hub.cpp:1194-1205 | One relay both name changes owner as it is. |
| ClimateHubs.ClimateHub.TakeHolder | components/climate_hub/climate_hub.cpp:709-760 | The holder handed over, stopped and disabled. |
| ClimateHubs.ClimateHub.DropReservers | components/climate_hub/climate_hub.cpp:709-740 | Every waiting rival disabled. |
| ClimateHubs.ClimateHub.TakeHolders | components/climate_hub/climate_hub.cpp:740-765 | Every running rival taken over. |
| ClimateHubs.ClimateHub.Enable | components/climate_hub/climate_hub.cpp:765-787 | The flag, the thermostat's own start, then the waiters'. |
| ClimateHubs.ClimateHub.TakeOver | components/climate_hub/climate_hub.cpp:709-787 | The whole take-over, or its refusal with nothing changed. |
| ClimateHubs.ClimateHub.SetEnabled | components/climate_hub/climate_hub.cpp:688-786 | Enable, disable and take-over with all their refusals; keeps what every mutator keeps. |
| DutyCyclers.UpdateStaysInPhase | components/climate_hub/duty_cycler.cpp:28-45 | An update moves the start by whole periods and says what a fixed origin and one remainder say. |
| DutyCyclers.RefinesSimpleForm | components/climate_hub/duty_cycler.cpp:6-45 | Whatever calls came between, every update equals ((now - origin) mod period) < duty * period, with exact ends. |
| DutyCyclers.NewCyclerIsSimple | components/climate_hub/duty_cycler.cpp:6-45 | The same from a new cycler on, for any sequence of calls on a clock that does not run back. |
| DutyCyclers.DutyCycler.SetPeriod | components/climate_hub/duty_cycler.cpp:6-13 | A new period ends the phase, the same one keeps it. |
| DutyCyclers.DutyCycler.SetDuty | components/climate_hub/duty_cycler.cpp:15-21 | Held between 0 and 1; 0 for no number. |
| DutyCyclers.DutyCycler.Update | components/climate_hub/duty_cycler.cpp:28-45 | The phase advanced, and the answer the specification gives for it. |
| Hysteresis.Latched | components/climate_hub/hysteresis_core.cpp:16-44 | A demand that fits the mode stays one that does; only the action changes. |
| Hysteresis.LatchIsTheLastCrossing | components/climate_hub/hysteresis_core.cpp:16-44 | In a one-direction mode the demand after any readings is that of the latest reading outside the band, and the one it began with while there is none. |
| Hysteresis.TwoWaysForget | components/climate_hub/hysteresis_core.cpp:36-40 | Driving both directions nothing is latched: any two runs that end in the same reading end in the same demand. |
| Hysteresis.HysteresisCore.Update | components/climate_hub/hysteresis_core.cpp:16-44 | The latch becomes what its specification says. |
| RelayTuner.UpdatedKeeps | components/climate_hub/pid_autotuner.cpp:22-44 | One sample keeps alternation, peaks beyond the band and crossings; it finishes a run only from the fifth switch. |
| RelayTuner.SixPhasesSuffice | components/climate_hub/pid_autotuner.cpp:178-180 | Enough data is exactly six phases, while the interval store holds. |
| RelayTuner.RunIsSound | components/climate_hub/pid_autotuner.cpp:22-44 | The invariant over every run of increasing times. |
| RelayTuner.StopsAtTheSixthSwitch | components/climate_hub/pid_autotuner.cpp:22-44 | A run whose store does not overflow has finished exactly when its relay has switched six times, on that sample. |
| RelayTuner.MeasuredSwing | components/climate_hub/pid_autotuner.cpp:182-192 | The measured amplitude exceeds the noiseband. |
| RelayTuner.FinishedRunMeasures | components/climate_hub/pid_autotuner.cpp:22-55 | A finished run has 0 < Ku < 4d/(pi noiseband), Pu > 0, and no rule's gain divides by zero. |
| RelayTuner.SwingRatioInRange | components/climate_hub/pid_autotuner.cpp:57-69 | There is a swing ratio exactly from three extremes on, above 0 and at most 1. |
| TunerMeasures.RunObserves | components/climate_hub/pid_autotuner.cpp:22-44 | Until it finishes, what the tuner holds is what its readings say: which side of the target the room is on, when it crossed, and the extreme reading of each phase. |
| TunerMeasures.FinishedRunMeasuresItsReadings | components/climate_hub/pid_autotuner.cpp:22-44 | A finished run in terms of its readings alone: Pu is twice the time from the first crossing to the last over their number less one, Ku is 4d / (PI a) with a half the swing between two peaks of the readings. |
| TunerMeasures.EvenSwingIsMeasuredExactly | components/climate_hub/pid_autotuner.cpp:120-127 | Crossings every half period give exactly the period, peaks of constant height exactly half their distance. |
| TunerMeasures.CrossingIsTimed | components/climate_hub/pid_autotuner.cpp:97-118 | A crossing is a reading that takes the room to the other side, and the intervals are the times between them. |
| RelayTuner.PidAutotuner.UpdateRelay | components/climate_hub/pid_autotuner.cpp:73-87 | The relay function and its switch count. |
| RelayTuner.PidAutotuner.UpdateFrequency | components/climate_hub/pid_autotuner.cpp:97-118 | Crossings of the narrow band and the intervals between them, up to 64. |
| RelayTuner.PidAutotuner.UpdateAmplitude | components/climate_hub/pid_autotuner.cpp:144-176 | Extremes of the phase, stored when it ends. |
| RelayTuner.PidAutotuner.MeasureAmplitude | components/climate_hub/pid_autotuner.cpp:182-192 | Half the mean swing, the first phase left out. |
| RelayTuner.PidAutotuner.MeasurePeriod | components/climate_hub/pid_autotuner.cpp:120-127 | Twice the mean interval. |
| RelayTuner.PidAutotuner.Update | components/climate_hub/pid_autotuner.cpp:22-44 | One sample, the output it gives and the finish. |
| Autotunes.FeedingKeeps | components/climate_hub/autotune.cpp:58-66 | A calibration keeps its one relay, direction and past. |
| Autotunes.FeedingTimesSwitches | components/climate_hub/autotune.cpp:58-66 | The last switch is the reading that switched the relay, and switches are counted one by one. |
| Autotunes.FirstReadingFindsNothing | components/climate_hub/autotune.cpp:58-66 | The first reading never ends a calibration with gains. |
| Autotunes.AutotuneRun.constructor | components/climate_hub/autotune.cpp:43-56 | A calibration of one direction, fully on or off around the target. |
| Autotunes.AutotuneRun.Feed | components/climate_hub/autotune.cpp:58-66 | A sample fed, the last switch noted, and whether the relay is to be closed. |
| ControllerSafety.ApplyingIsSafe | components/climate_hub/controller_runtime.cpp:223-259 | A preset, mode or target keeps the invariant: a mode change drops the latch and a calibration. |
| ControllerSafety.RunBegunIsSafe | components/climate_hub/controller_runtime.cpp:274-306 | Beginning a calibration leaves duty only in its direction. |
| ControllerSafety.StartedIsSafe | components/climate_hub/controller_runtime.cpp:69-128 | A start or a Save seeds the latch only in directions the mode drives. |
| ControllerSafety.TickedIsSafe | components/climate_hub/controller_runtime.cpp:327-357 | A pass keeps the invariant and leaves duty only in a direction the mode drives. |
| ControllerSafety.EveryRunIsSafe | components/climate_hub/controller_runtime.cpp:69-357 | Over every run of passes, readings, commands, Saves, calibrations and relays moved from elsewhere: heat and cool duty are never both positive, and the action says off exactly in mode off, on a cut-out or stopped. |
| ControllerSafety.DutyFollowsMode | components/climate_hub/controller_runtime.cpp:327-357 | After every pass of every run only a direction the mode drives has duty. |
| ControllerSafety.NothingToActOnOpensBoth | components/climate_hub/controller_runtime.cpp:327-357 | With a silent sensor, a reading over the limit or none, a pass opens both relays whatever moved them. |
| ControllerSafety.CheckedRefuses | components/climate_hub/controller_runtime.cpp:359-390 | A cut-out or a missing reading is exactly silence, over-temperature or no reading. |
| ControllerSafety.ClosedOnlyFor | components/climate_hub/controller_runtime.cpp:327-357 | After a pass a closed relay has duty and a fresh reading under the limit, or its own min_on or put-back holds it. |
| ControllerSafety.EveryClosedRelayHasItsReason | components/climate_hub/controller_runtime.cpp:69-357 | The same after every pass of every run, duty only in a driven direction. |
| ControllerSafety.ShownOnceClosed | components/climate_hub/controller_runtime.cpp:394-420 | Heating comes up only with the heating claim closed, cooling likewise. |
| ControllerSafety.HeatingMeansClosed | components/climate_hub/controller_runtime.cpp:327-357 | After a pass the entity comes to say heating only with the contact closed. |
| ControllerSafety.PassIsLife | components/climate_hub/controller_runtime.cpp:454-468 | A pass is one move in the life of each relay held, so that no relay is cycled short holds of this loop. |
| ControllerAnswers.PidPass | components/climate_hub/controller_runtime.cpp:430-446 | A PID pass: the effort of the law on the reading shown is the duty of the direction of its sign, at most all of it, where there is a relay and the mode drives it. |
| ControllerAnswers.ColdRoomIsHeated | components/climate_hub/controller_runtime.cpp:430-446 | With a proportional gain alone the heater has duty exactly below the setpoint and the cooler exactly above it. |
| ControllerAnswers.LatchPass | components/climate_hub/controller_runtime.cpp:447-451 | A bang-bang pass: all or nothing, in the direction of the last switching point crossed. |
| ControllerAnswers.PassKeepsDuties | components/climate_hub/controller_runtime.cpp:327-357 | A pass that does not run the law has no duty with nothing to act on, and the duties it had otherwise. |
| ControllerAnswers.LawKeepsItsInterval | components/climate_hub/controller_runtime.cpp:346-350 | After a pass that ran the law it runs again once its interval is over, on the time passed since. |
| ControllerAnswers.CommandArrives | components/climate_hub/controller_runtime.cpp:223-259 | A command arrives: a target sent, or else its preset's, at the nearest the range allows; its mode, or else its preset's, if the relays serve it; and nothing else of the document moves. |
| ControllerAnswers.ComesBackAsItWas | components/climate_hub/climate_config.cpp:593-604 | Off and on again a thermostat is in the mode it was in. |
| ControllerAnswers.ShownIsDone | components/climate_hub/controller_runtime.cpp:394-420 | The action shown is what the relays do, or a PID between two pulses. |
| ControllerDemands.BandIsKept | components/climate_hub/controller_runtime.cpp:447-451 | After any run, a bang-bang pass gives the heater all its duty below the target by more than the band, the cooler above it, and inside the band asks for nothing new. |
| ControllerDemands.EveryRunHoldsPoints | components/climate_hub/controller_runtime.cpp:156-188 | Over every run the latch has the switching points and directions of the document. |
| ControllerDemands.EveryRunCalibrates | components/climate_hub/controller_runtime.cpp:261-325 | Over every run a calibration swings around the target there is, and its relay is on exactly when its tuner says so. |
| ControllerDemands.CalibrationSwingsAroundTarget | components/climate_hub/controller_runtime.cpp:289-306 | In any run, a reading below the target by more than the band has a heating calibration's relay on, one above it off, cooling the other way round, and the other direction without duty. |
| ControllerDemands.CalibrationEnds | components/climate_hub/autotune.cpp:68-76 | A pass ends a calibration exactly on a fault, after a day, six hours after its last switch, or with its store of crossings full. |
| ControllerDemands.ReadingEndsCalibration | components/climate_hub/controller_runtime.cpp:289-306 | A reading ends it exactly over the limit or past those times, and otherwise is fed to it. |
| ControllerDemands.SilenceOpens | components/climate_hub/controller_runtime.cpp:327-390 | In any run whose latest reading was some value at some time, a pass opens both relays exactly when the reading is older than the timeout or over the limit, and names which. |
| ControllerDemands.SilenceCountsFrom | components/climate_hub/controller_runtime.cpp:69-128 | From a start on silence counts from the reading the start knew of, or the start, or where it counted before a Save that keeps the sensor. |
| ControllerDemands.ContestIsReported | components/climate_hub/controller_runtime.cpp:359-390 | A contest on either relay is the fault exactly when there is no cut-out. |
| ControllerDemands.PassStaysInPhase | components/climate_hub/controller_runtime.cpp:454-459 | Over the passes a relay is asked for the first part of each period that its duty says, in the phase it began. |
| ControllerDemands.StartedDemands | components/climate_hub/controller_runtime.cpp:103-112 | A start goes by what its relays do, a Save of a bang-bang thermostat by what its latch held, each in directions the mode drives. |
| ControllerDemands.StartedPulses | components/climate_hub/controller_runtime.cpp:69-96 | A start gives each relay the document's dwell and period; only a Save that leaves the period alone goes on with the phase. |
| ControllerDemands.StartedShows | components/climate_hub/controller_runtime.cpp:78-82 | With both relays open, a start shows the direction shown before only for a PID between two pulses on the relay it had. |
| ControllerDemands.FirstEffort | components/climate_hub/controller_runtime.cpp:74-101 | A Save of a PID on the same sensor keeps its integral; after any other start the first effort is its proportional term and the document's starting integral. |
| ControllerDemands.EffortAfterCalibration | components/climate_hub/controller_runtime.cpp:308-325 | After a calibration the PID starts over likewise. |
| ControllerDemands.CommandIsActedOn | components/climate_hub/controller_runtime.cpp:223-259 | A command that moves mode or target ends a calibration, a new mode drops the latch, and the next pass runs the law. |
| ControllerDemands.StoppedShowsNothing | components/climate_hub/controller_runtime.cpp:130-147 | Stopped, it holds no relay and shows nothing. |
| ControllerRuntimes.ControllerRuntime.constructor | components/climate_hub/controller_runtime.cpp:69-84 | A controller not running. |
| ControllerRuntimes.ControllerRuntime.EndAutotune | components/climate_hub/controller_runtime.cpp:308-325 | A calibration let go of, duties zero, a pass due, and the PID starting over. |
| ControllerRuntimes.ControllerRuntime.FeedAutotune | components/climate_hub/controller_runtime.cpp:289-306 | A sample ends the calibration at a limit or sets its relay. |
| ControllerRuntimes.ControllerRuntime.BeginAutotune | components/climate_hub/controller_runtime.cpp:274-287 | A calibration takes the duties over; clock and duty invariants kept. |
| ControllerRuntimes.ControllerRuntime.OnSample | components/climate_hub/controller_runtime.cpp:261-272 | A reading noted and fed; clock and duty invariants kept. |
| ControllerRuntimes.ControllerRuntime.Apply | components/climate_hub/controller_runtime.cpp:223-259 | A command applied, and whether the document changed; clock and duty invariants kept. |
| ControllerRuntimes.ControllerRuntime.RefreshFault | components/climate_hub/controller_runtime.cpp:359-390 | The fault found, a pass due when a cut-out ends. |
| ControllerRuntimes.ControllerRuntime.RunControl | components/climate_hub/controller_runtime.cpp:430-452 | The law run: the PID on the time passed since the last pass, or the latch, sets both duties. |
| ControllerRuntimes.ControllerRuntime.DriveOutputs | components/climate_hub/controller_runtime.cpp:454-459 | Each claim asked for what its cycler says. |
| ControllerRuntimes.ControllerRuntime.AllRelaysOff | components/climate_hub/controller_runtime.cpp:461-468 | Duties zero, both claims forced off; unpaced both switches are off. |
| ControllerRuntimes.ControllerRuntime.Check | components/climate_hub/controller_runtime.cpp:331-340 | The fault, and a calibration it or a limit ends. |
| ControllerRuntimes.ControllerRuntime.Act | components/climate_hub/controller_runtime.cpp:341-353 | Off, or the law and the outputs. |
| ControllerRuntimes.ControllerRuntime.Tick | components/climate_hub/controller_runtime.cpp:327-357 | One pass with the effort its own PID gives; state, PID, clock and duty invariants hold before and after. |
| ControllerRuntimes.ControllerRuntime.ApplyConfig | components/climate_hub/controller_runtime.cpp:156-188 | Setpoints, directions, periods and dwell from the document; no switch is touched. |
| ControllerRuntimes.ControllerRuntime.ApplyTuning | components/climate_hub/controller_runtime.cpp:156-164 | The PID tuned from the document; what it learnt kept inside the new limits, or dropped. |
| ControllerRuntimes.ControllerRuntime.RunLaw | components/climate_hub/controller_runtime.cpp:430-443 | One update of the PID, its averages begun anew after a pause. |
| ControllerRuntimes.ControllerRuntime.Start | components/climate_hub/controller_runtime.cpp:69-128 | A start or a Save: the whole new state, the PID kept where law and sensor stand, no switch touched, clock and duty invariants kept. |
| ControllerRuntimes.ControllerRuntime.Stop | components/climate_hub/controller_runtime.cpp:130-147 | Both relays open and let go of; clock and duty invariants kept. |
| ControllerRuntimes.ControllerRuntime.ReleaseClaim | components/climate_hub/controller_runtime.cpp:149-154 | A claim let go of without touching its relay. |
| ControlLaws.PauseIsRemembered | components/climate_hub/controller_runtime.cpp:340-347 | A pass that stands by leaves the next one a first pass. |
| ControlLaws.FirstPassStartsOver | components/climate_hub/controller_runtime.cpp:430-443 | However long the pause, the first pass after it leaves the integral at its old value within the limits, has no derivative, and gives proportional term and integral without averaging. |
| ControllerClock.TickedTimely | components/climate_hub/controller_runtime.cpp:327-357 | A pass leaves every time its parts remember in the past. |
| ControllerClock.StartedTimely | components/climate_hub/controller_runtime.cpp:69-128 | So does a start or a Save given claims that remember no future. |
| ControllerClock.EveryRunIsTimely | components/climate_hub/controller_runtime.cpp:69-357 | Over every run on a clock that does not run back, each step finds what cyclers, claims and calibration remember in the past, as it needs. |
| SampleWindows.WindowIsTheNewest | components/climate_hub/pid_core.cpp:17-35 | Asked for the same number each time, the window is the newest that many of all there was. |
| SampleWindows.SampleWindow.Reserve | components/climate_hub/pid_core.cpp:7-15 | The ring grows and keeps what it holds, in order. |
| SampleWindows.SampleWindow.PushAverage | components/climate_hub/pid_core.cpp:17-35 | Through growth, shrink and wrap: the contents are the newest values of a plain list, the result their mean. |
| PidCores.IntegralStaysInside | components/climate_hub/pid_core.cpp:131-136 | The integral stays inside its limits whatever the errors and pauses. |
| PidCores.NoSetpointKick | components/climate_hub/pid_core.cpp:138-154 | From one update to the next the slope is that of the reading alone, wherever the setpoint was and is. |
| PidCores.StepIsSmooth | components/climate_hub/pid_core.cpp:120-129 | Between any two errors the proportional term neither jumps nor turns back and grows at most by the gain, unless it acts and its deadband reaches only below the target. |
| PidCores.OneSidedJumps | components/climate_hub/pid_core.cpp:120-129 | With a deadband only below the target, any positive error inside it, however small, puts the term higher than on target by at least the gain times (1 - multiplier) times the threshold. |
| PidCores.DeadbandIsSmooth | components/climate_hub/pid_core.cpp:120-129 | For tunings in range the term itself is smooth exactly when the gain is 0 or the deadband is not one-sided from below (low < 0, high = 0, multiplier < 1). |
| PidCores.ProportionalIsShaped | components/climate_hub/pid_core.cpp:120-129 | The term is the gain times the shaped error. |
| PidCores.LimitsHoldAtOnce | components/climate_hub/pid_core.cpp:43-56 | New limits hold at once, and leave an integral inside them alone. |
| PidCores.IntegralIsArea | components/climate_hub/pid_core.cpp:131-136 | Over a run that stays inside the limits the integral grows by ki times the area between target and reading: up below the target, down above it. |
| PidCores.DerivativeBrakes | components/climate_hub/pid_core.cpp:108-155 | Without averages the effort is the sum of its terms, and the derivative works against a reading that moves. |
| PidCores.PidCore.ForgetSamples | components/climate_hub/pid_core.cpp:95-99 | Both windows and the last setpoint dropped. |
| PidCores.PidCore.SetIntegralLimits | components/climate_hub/pid_core.cpp:43-49 | New limits hold the integral at once. |
| PidCores.PidCore.CalculateProportional | components/climate_hub/pid_core.cpp:120-129 | The proportional term. |
| PidCores.PidCore.CalculateIntegral | components/climate_hub/pid_core.cpp:131-136 | The integral term, clamped. |
| PidCores.PidCore.CalculateDerivative | components/climate_hub/pid_core.cpp:138-154 | The smoothed slope, the setpoint's move taken out. |
| PidCores.PidCore.Update | components/climate_hub/pid_core.cpp:108-118 | All three terms and the averaged effort. |
| Slugs.SlugIsSlug | components/climate_hub/climate_config.cpp:197-218 | Every name reduces to a slug. |
| Slugs.SlugSettles | components/climate_hub/climate_config.cpp:197-218 | Slugs are what reducing leaves alone; reducing twice is reducing once. |
| Slugs.SuffixKeepsSlug | components/climate_hub/climate_config.cpp:220-229 | An id with a number is a slug within the length. |
| Slugs.SuffixesDiffer | components/climate_hub/climate_config.cpp:220-229 | From 2 on, different numbers make different ids. |
| Slugs.FirstMayRepeat | components/climate_hub/climate_config.cpp:220-229 | The unnumbered candidate equals the one with a number exactly when the base has at least 47 of the 48 characters and ends in that number already. |
| Slugs.SomeKeyIsFree | components/climate_hub/climate_config.cpp:525-537 | With at most eight presets one of the numbers 2 to 9 makes a free key. |
| Slugs.PresetList.FindPreset | components/climate_hub/climate_config.cpp:539-547 | The preset with a key, none for the empty key. |
| Slugs.PresetList.MakeKey | components/climate_hub/climate_config.cpp:529-535 | A slug no preset has; the search ends. |
| Slugs.PresetList.AssignPresetKeys | components/climate_hub/climate_config.cpp:525-537 | Every preset gets a key, keys there stay, no two alike. |
| SlugWords.SlugKeepsWords | components/climate_hub/climate_config.cpp:197-219 | A slug is the words of its name in lower case with one dash between any two, as far as they fit, or the fallback when there is none. |
| RuleMachine.TimerIdsDiffer | components/automations/runtime_automation.h:123-143 | Timer ids fit 32 bits and never collide, within a rule or across rules. |
| RuleInvariants.FreeSlotFound | components/automations/runtime_automation.cpp:605-614 | While a rule has fewer runs than slots the lowest free one is found. |
| RuleInvariants.StartedKeeps | components/automations/runtime_automation.cpp:441-481 | Starting a run, from any callback, keeps the invariant. |
| RuleInvariants.SteppedKeeps | components/automations/runtime_automation.cpp:483-510 | One turn of step_ keeps it, whatever the action before did to this run. |
| RuleInvariants.TimerFiresKeeps | components/automations/runtime_automation.cpp:490-495 | A timer that fires keeps it. |
| RuleInvariants.HappenedKeeps | components/automations/runtime_automation.cpp:326-510 | Every event that can happen keeps it. |
| RuleInvariants.EveryRunIsSound | components/automations/runtime_automation.cpp:326-614 | In every reachable state, also from inside a switch action: at most 1 run (single, restart) or 8 (parallel), distinct tokens and slots, each run on the call stack once or with exactly its own timer, no timer of a run or rule that is gone, each branch played in order. |
| RuleInvariants.ReachableIsSound | components/automations/runtime_automation.cpp:326-614 | The same from an empty engine. |
| RuleInvariants.FinishedRunPlayedAll | components/automations/runtime_automation.cpp:483-510 | A run that ends at its end has played its whole branch, each step once, in order. |
| RuleInvariants.ClimateOnlyFromLoop | components/automations/runtime_automation.cpp:487-495 | A thermostat step is played only from the scheduler with nothing else under way. |
| RuleInvariants.IdleRunsWait | components/automations/runtime_automation.cpp:483-510 | With nothing under way a live run has exactly one timer, under its own id. |
| RuleInvariants.RestartEndsTheOld | components/automations/runtime_automation.cpp:441-458 | A restart from inside a run's own action ends that run and every timer of the rule. |
| RuleAnswers.StartAnswers | components/automations/runtime_automation.cpp:434-481 | A trigger or run-now begins a run with a new token exactly when none is live, the mode is restart, or it is parallel with fewer than eight: from the first action of the branch the condition chose, with the trigger's state, beside the runs there are unless it restarts. Refused, only a single run takes its state. |
| RuleAnswers.TurnAnswers | components/automations/runtime_automation.cpp:483-510 | One turn: an action played keeps the control until it returns; a delay or a thermostat outside the scheduler gives it up until its timer; at its end the run goes. |
| RuleAnswers.EveryTimerIsItsRuns | components/automations/runtime_automation.cpp:483-510 | Over every run each timer is set for just the wait its run has come to: the delay's time, or none for a thermostat. |
| RuleAnswers.ReachableWaitsRight | components/automations/runtime_automation.cpp:326-510 | The same from an engine without rules. |
| RuleEngines.RuleEngine.FreeSlot | components/automations/runtime_automation.cpp:605-614 | The lowest slot no run has. |
| RuleEngines.RuleEngine.StopRuns | components/automations/runtime_automation.cpp:332-336 | Every run of the rule gone, its timers cancelled. |
| RuleEngines.RuleEngine.Start | components/automations/runtime_automation.cpp:441-481 | Refused, restarted or started by mode; the invariant kept. |
| RuleEngines.RuleEngine.Turn | components/automations/runtime_automation.cpp:483-510 | One turn of the loop in step_. |
| RuleEngines.RuleEngine.Step | components/automations/runtime_automation.cpp:483-510 | The same as an event; the invariant kept. |
| RuleEngines.RuleEngine.TimerFires | components/automations/runtime_automation.cpp:490-495 | The run goes on from the scheduler. |
| RuleEngines.RuleEngine.SetEnabled | components/automations/runtime_automation.cpp:326-330 | Disabling stops the runs. |
| RuleTriggers.ArmedMeansOutside | components/automations/runtime_automation.cpp:387-418 | A temperature trigger is armed exactly when the last number read was outside its zone. |
| RuleTriggers.FiresOnEntry | components/automations/runtime_automation.cpp:387-418 | It fires exactly when the zone is entered. |
| RuleTriggers.ClickIsPressAndRelease | components/automations/runtime_automation.cpp:338-374 | A click is a press and the release right after it, 200 to 1000 ms later. |
| RuleTriggers.XorIsExactlyOne | components/automations/runtime_automation.cpp:60-65 | Exclusive or over any number of conditions: exactly one holds. |
| RuleTriggers.Check | components/automations/runtime_automation.cpp:26-70 | A condition checked, short-circuits and counting included. |
| RuleTriggers.TemperatureTrigger.OnSensor | components/automations/runtime_automation.cpp:387-418 | One reading: whether it fires and whether it is armed after. |
| RuleTriggers.ClickTrigger.OnBinarySensor | components/automations/runtime_automation.cpp:338-374 | One edge of the input. |
| RuleTriggers.ZonesDivide | components/automations/runtime_automation.cpp:387-418 | Below and above a threshold divide the readings but for the threshold itself; a range is what lies neither below its lower end nor above its upper one. |
| RuleTriggers.GroupsCount | components/automations/runtime_automation.cpp:26-70 | A group of conditions is decided by how many of them hold: all, at least one, exactly one. |
| RuleTriggers.BoundsDivide | components/automations/runtime_automation.cpp:26-70 | Temperature bounds divide the readings, and without a reading none is met; an input without a state is off. |
| Texts.DecimalParses | components/automations/automation_config.cpp:18-28 | A byte printed in decimal is parsed back. |
| Texts.WhitespaceLeads | components/automations/automation_config.cpp:18-29 | Whitespace before a number is passed over. |
| Texts.NothingElseLeads | components/automations/automation_config.cpp:18-29 | A character that is no digit, sign or whitespace makes it no number. |
| CronFields.ValuesAreDenoted | components/automations/automation_config.cpp:178-184 | The loop over a member yields exactly the values it denotes. |
| CronFields.AcceptedFieldMeans | components/automations/automation_config.cpp:190-206 | A field is accepted exactly when each member can be read; then it is not empty, strictly increasing, in range, and the union of what its members denote. |
| CronFields.SteppedMeans | components/automations/automation_config.cpp:90-117 | A step pattern printed denotes exactly the values it was found in. |
| CronFields.PrintedReadsBack | components/automations/automation_config.cpp:67-146 | Whichever form is printed, it reads back. |
| CronFields.FieldRoundTrips | components/automations/automation_config.cpp:67-206 | Any bytes come back from their print exactly when they are some values, strictly increasing and in range. |
| CronForms.PrintedForm | components/automations/automation_config.cpp:67-147 | A field that one member says is printed as that: all of it as a star, every k-th value as a stepped star, neighbours as a range, one value as itself. |
| CronStrings.AcceptedCronIsValid | components/automations/automation_config.cpp:294-334 | No accepted cron string has a field that never fires. |
| CronStrings.CronRoundTrips | components/automations/automation_config.cpp:208-212 | Six lists come back from their string exactly when each is a field of its range. |
| CronStrings.ReadingSettles | components/automations/automation_config.cpp:294-334 | Printing what was read and reading again changes nothing. |
| CronStrings.IsFullRange | components/automations/automation_config.cpp:76-88 | All values present. |
| CronStrings.CommonStep | components/automations/automation_config.cpp:90-117 | The step from the first value to the last one it reaches, or none. |
| CronStrings.ListText | components/automations/automation_config.cpp:137-145 | The comma-separated list. |
| CronStrings.SerializeField | components/automations/automation_config.cpp:67-146 | The text of a field. |
| CronStrings.PushValues | components/automations/automation_config.cpp:178-184 | The byte-wide loop: it ends, never wraps, and pushes the member's values. |
| CronStrings.ParsePart | components/automations/automation_config.cpp:149-187 | One member read or refused. |
| CronStrings.DeserializeField | components/automations/automation_config.cpp:190-206 | A whole field read or refused. |
| CronStrings.SplitFields | components/automations/automation_config.cpp:299-313 | The text between spaces. |
| CronStrings.TriggerConfig.CronString | components/automations/automation_config.cpp:208-212 | The six fields as one string. |
| CronStrings.TriggerConfig.Deserialize | components/automations/automation_config.cpp:294-334 | Read exactly when the string means a cron rule, the fields filled with what it means. |
| RuleNames.Truncated | components/automations/automation_storage.cpp:35-55 | A prefix within the limit, the whole text when it fits. |
| RuleNames.SanitizedIsClean | components/automations/automation_storage.cpp:556-594 | Every name maps to a clean file name of 1 to 48 bytes. |
| RuleNames.SanitizingSettles | components/automations/automation_storage.cpp:556-594 | The clean names are exactly those sanitizing leaves alone. |
| RuleNames.NumberSurvives | components/automations/automation_storage.cpp:556-594 | A number added after a space is what follows the last underscore of the file name. |
| RuleNames.NumbersMakeNamesDistinct | components/automations/automation_storage.cpp:869-877 | Different numbers make different file names, whatever the names cut to fit are. |
| RuleNameWords.CutKeepsCharacters | components/automations/automation_storage.cpp:35-58 | A name in UTF-8 is cut between characters: what is left are its first characters, and one more would not fit. |
| RuleNameWords.KeptCharByChar | components/automations/automation_storage.cpp:556-569 | Letters in lower case, digits and non-ASCII bytes stay, spaces and dashes become underscores, everything else goes. |
| RuleNameWords.FileNameKeepsWords | components/automations/automation_storage.cpp:556-598 | A file name is the words of what is kept with one underscore between any two, cut if too long, or the fallback. |
| RuleNames.TruncateUtf8 | components/automations/automation_storage.cpp:35-55 | The text cut at a character. |
| RuleNames.FilterName | components/automations/automation_storage.cpp:558-570 | Letters, digits and separators kept. |
| RuleNames.CollapseName | components/automations/automation_storage.cpp:572-583 | Runs of underscores made one. |
| RuleNames.SanitizeFilename | components/automations/automation_storage.cpp:556-594 | The file name a name maps to. |
| RuleStorage.NotAllInUse | components/automations/automation_storage.cpp:643-653 | Ids tried one after the other cannot all be in use: the search ends. |
| RuleStorage.SomeSuffixIsFree | components/automations/automation_storage.cpp:865-877 | With at most 255 rules one of 256 suffixes makes a file name no rule has. |
| RuleStorage.RenamedIsAlone | components/automations/automation_storage.cpp:870-884 | A rule renamed to a free name is alone, and whoever was alone still is. |
| RuleStorage.AutomationStorage.FindIndexById | components/automations/automation_storage.cpp:956-963 | The rule with an id, or none. |
| RuleStorage.AutomationStorage.AllocateId | components/automations/automation_storage.cpp:643-653 | An id no rule has, within what a timer id can carry; it ends. |
| RuleStorage.AutomationStorage.IsNameTaken | components/automations/automation_storage.cpp:604-613 | Whether another rule has the file name. |
| RuleStorage.AutomationStorage.ResolveIds | components/automations/automation_storage.cpp:841-863 | Ids distinct in 1 to 2^28-1; exactly those stay that are valid and come first. |
| RuleStorage.AutomationStorage.Rename | components/automations/automation_storage.cpp:869-884 | A free name; "no free name" never comes up. |
| RuleStorage.AutomationStorage.MakeAlone | components/automations/automation_storage.cpp:865-884 | A rule alone in its file name, renamed only if it was not. |
| RuleStorage.AutomationStorage.ResolveDuplicates | components/automations/automation_storage.cpp:838-886 | Afterwards no two ids and no two file names are alike; rules alone from the start keep their name; what changed is reported. |
| RuleFiles.PlacedStep | components/automations/automation_storage.cpp:909-952 | One rule of one round keeps the state of the folder the invariant describes. |
| RuleFiles.Finished | components/automations/automation_storage.cpp:890-954 | After both rounds every rule is alone in its file, nothing left of the files they came from, refused files untouched. |
| RuleFiles.RuleFolder.Place | components/automations/automation_storage.cpp:909-952 | One rule written to its file, its old one deleted or vacated. |
| RuleFiles.RuleFolder.NormalizeFilenames | components/automations/automation_storage.cpp:890-954 | Both rounds: each rule ends alone in its canonical file. |
| ClockCatchUp.FiredIncreases | components/automations/automation_storage.cpp:258-285 | Between jumps back fired seconds strictly increase, after the reading it began at and up to the last accepted one. |
| ClockCatchUp.EverySecondFiresOnce | components/automations/automation_storage.cpp:258-285 | Without jumps every second up to the last accepted reading fires exactly once, in order. |
| ClockCatchUp.FiredUnlessJumped | components/automations/automation_storage.cpp:258-285 | As long as the clock is not set back, a second up to the last accepted reading fires exactly unless a jump ahead over 900 s passes over it. |
| ClockCatchUp.BackJumpStartsOver | components/automations/automation_storage.cpp:258-285 | A jump back over 900 s fires the second it lands on, and from there on the clock fires what one begun there would. |
| ClockCatchUp.RuleClock.CheckTime | components/automations/automation_storage.cpp:258-285 | What one reading of the clock fires and remembers. |
| ClockCatchUp.ReadingAnswers | components/automations/automation_storage.cpp:258-285 | Up to 900 s ahead fires every second between, farther ahead none; up to 900 s back is waited out, farther back fires that second and goes on from it. |
| LoopJobs.EveryInterleavingIsSound | components/loop_job/loop_job.h:24-54 | The handshake's invariant under every interleaving. |
| LoopJobs.TheCallerHearsTheTruth | components/loop_job/loop_job.h:24-98 | The job begins at most once; told "not run" it never runs; a result given is what the finished job returned. |
| LoopJobs.TheWaitEnds | components/loop_job/loop_job.h:81-98 | A loop task that never comes leaves the caller waiting its five seconds and no longer; a published result reaches it. |
| LoopJobs.LoopJobSlot.CompareExchange | components/loop_job/loop_job.h:29-42 | The state swapped exactly when it is the expected one. |
| LoopJobs.LoopJobSlot.Enter | components/loop_job/loop_job.h:29-32 | The loop side's claim on the job. |
| LoopJobs.LoopJobSlot.Abandon | components/loop_job/loop_job.h:39-42 | The caller's claim that it never runs. |
| Utf8.DecodesEncoded | components/panel_text/panel_text.cpp:54-66 | Decoding inverts encoding, whatever follows. |
| Utf8.WholeIsRfc3629 | components/panel_text/panel_text.cpp:19-66 | A whole sequence is decoded exactly where the grammar of section 4 of RFC 3629 has one. |
| Utf8.DecodesIffWellFormed | components/panel_text/panel_text.cpp:54-66 | A text decodes exactly when it is an encoding of some code points, and to those. |
| Utf8.IllFormedPartIsMaximal | components/panel_text/panel_text.cpp:45-66 | What is taken of an ill-formed sequence begins some well-formed one and one byte more does not. |
| Utf8.Decode | components/panel_text/panel_text.cpp:54-66 | The decoding loop. |
| PanelText.LabelMeans | components/panel_text/panel_text.cpp:70-88 | A label is accepted exactly when, trimmed, it is well-formed, free of control characters and at most 24 code points; that is what is kept. |
| PanelText.TrimmedMeans | components/panel_text/panel_text.cpp:73-78 | Trimming takes the spaces at both ends and nothing else. |
| PanelText.SafeIsWellFormed | components/panel_text/panel_text.cpp:90-112 | For any bytes the result is well-formed: drawable code points, question marks, and the ellipsis of a cut. |
| PanelText.SafeLeavesAlone | components/panel_text/panel_text.cpp:90-112 | A text within the limit stays as it is exactly when it is such a text. |
| PanelText.GlyphsAreCodePoints | components/panel_text/panel_text.cpp:114-116 | In well-formed text glyphs counted are code points. |
| PanelText.FitFits | components/panel_text/panel_text.cpp:118-133 | A fitted text never has more glyphs than asked for; one that fits is left alone. |
| PanelText.FitSplitsNoCodePoint | components/panel_text/panel_text.cpp:118-133 | Of well-formed text fitting keeps whole code points: the first ones without trailing spaces and an ellipsis. |
| PanelText.PairFits | components/panel_text/panel_text.cpp:135-146 | A name and a value never exceed the row; a value with room beside six glyphs of the name is whole. |
| PanelText.ParseLabelBytes | components/panel_text/panel_text.cpp:70-88 | The label kept, or the old one when refused. |
| PanelText.MakeSafe | components/panel_text/panel_text.cpp:90-112 | The bytes made fit to draw. |
| PanelText.CountGlyphs | components/panel_text/panel_text.cpp:114-116 | Lead bytes counted. |
| PanelText.Fit | components/panel_text/panel_text.cpp:118-133 | A row cut to its glyphs. |
| PanelText.Pair | components/panel_text/panel_text.cpp:135-146 | A name and a value in one row. |
| JeefsWalks.FeedingStaysInside | components/jethome_board_info/jeefs_parse.h:200-235 | Whatever a header holds: the next one wanted and a file found lie inside the image, and the walk moves forward. |
| JeefsWalks.WalkFindsTheFirst | components/jethome_board_info/jeefs_parse.h:200-235 | Over a well-formed chain the walk finds the first file of the name, or reports none exactly when there is none. |
| JeefsWalks.SearchFindsTheFirst | components/jethome_board_info/jeefs_parse.h:172-235 | The whole search, with names that do not fit and images without a filesystem. |
| JeefsWalks.JeefsWalk.constructor | components/jethome_board_info/jeefs_parse.h:172-187 | A search begun, refused or over. |
| JeefsWalks.JeefsWalk.Feed | components/jethome_board_info/jeefs_parse.h:200-235 | One header fed. |
| JeefsWalks.FindFile | components/jethome_board_info/jethome_board_info.cpp:94-121 | The loop over reads that may fail: it ends, reads inside the image, and a file returned lies in it. |
| JeefsImages.HeaderReadsBack | components/jethome_board_info/jeefs_parse.h:70-78 | A header reads back as it was written: name, size, checksum of the data, link, own checksum. |
| JeefsImages.WrittenIsFound | components/jethome_board_info/jeefs_parse.h:172-235 | Any files written one after the other, whatever lies before and behind: the search finds the first of the name with its data and checksum, or reports that there is none. |
| JeefsImages.FeedAnswers | components/jethome_board_info/jeefs_parse.h:200-235 | One header: an erased slot ends the chain, another checksum is not believed, and what is believed is corrupt exactly when its name is not closed, its data is none or runs over the image, or its link leads elsewhere. |
| I2cEeproms.RolledInsidePage | components/i2c_eeprom/i2c_eeprom.cpp:64-76 | A chunk inside a page is written flat by a chip that rolls over. |
| I2cEeproms.ChunkInsidePage | components/i2c_eeprom/i2c_eeprom.cpp:70-72 | A chunk cut at our page size never passes the end of the part's page. |
| I2cEeproms.FlatReadsBack | components/i2c_eeprom/i2c_eeprom.cpp:84-98 | Bytes written are read back and all others are as they were. |
| I2cEeproms.I2cEeprom.Put | components/i2c_eeprom/i2c_eeprom.cpp:55-81 | A successful put changes exactly the bytes asked for; a failing chunk leaves exactly the chunks before it, up to a page boundary. |
| I2cEeproms.I2cEeprom.Get | components/i2c_eeprom/i2c_eeprom.cpp:84-98 | What is read is what the memory holds there. |
| SlotFiles.AddressReadsBack | components/dallas_scan/slot_file.cpp:17-35 | An address written as sixteen hex digits reads back; 0 does not read as one. |
| SlotFiles.OffsetIsNearest | components/dallas_scan/dallas_scan.cpp:34-45 | An offset is the nearest tenth to within the margin, and accepted exactly while that stays within the limit. |
| SlotFiles.ParsedIsSound | components/dallas_scan/slot_file.cpp:37-144 | Whatever lists a file holds, what is read has no device in two slots, offsets within the limit and labels as accepted. |
| SlotFiles.FileRoundTrips | components/dallas_scan/slot_file.cpp:37-178 | A table, addresses, offsets and labels, comes back from its file exactly when it is such a table. |
| SlotFiles.ReadDigits | components/dallas_scan/slot_file.cpp:20-30 | Up to sixteen hex digits and their value; anything else is refused. |
| SlotFiles.ReadAddress | components/dallas_scan/slot_file.cpp:17-35 | A text read as an address or refused. |
| SlotFiles.SlotFile.ParseRecords | components/dallas_scan/slot_file.cpp:37-70 | The records read one after the other over an empty table. |
| SlotFiles.SlotFile.ParseOffsets | components/dallas_scan/slot_file.cpp:77-107 | The offsets read over none. |
| SlotFiles.SlotFile.ParseLabels | components/dallas_scan/slot_file.cpp:110-144 | The labels read over none. |
| SlotFiles.SlotFile.ParseJson | components/dallas_scan/slot_file.cpp:37-144 | The whole file, whatever was held before. |
| SlotFiles.SlotFile.WriteJson | components/dallas_scan/slot_file.cpp:146-178 | The lists of what is not empty. |
| DallasSlots.PinningMeans | components/dallas_scan/dallas_scan.cpp:158-163 | Listed sensors end in their own slots, everything else as it was but for their addresses. |
| DallasSlots.ScanningMeans | components/dallas_scan/dallas_scan.cpp:164-180 | A scan moves no device, and leaves a thermometer out only when no slot is free. |
| DallasSlots.BootSticks | components/dallas_scan/dallas_scan.cpp:150-193 | One boot over any bus: no address twice, listed sensors in their slots, known devices in theirs, a thermometer left out only with no slot free. |
| DallasSlots.AssigningMeans | components/dallas_scan/dallas_scan.cpp:430-465 | An assign swaps two devices or displaces one, and touches nothing else. |
| DallasSlots.ForgettingMeans | components/dallas_scan/dallas_scan.cpp:389-398 | Row by row: a forget of one slot empties its address only, of all its offset and label too; listed slots and others stay. |
| DallasSlots.EveryRunIsSteady | components/dallas_scan/dallas_scan.cpp:150-567 | Over any boots, failed loads and writes, assigns, forgets, offsets, labels and files edited by hand: no address in two slots, listed sensors in theirs, and a table its own file would give back. |
| DallasSlots.KnownDeviceSticks | components/dallas_scan/dallas_scan.cpp:68-567 | Over boots that load or do not, hand edits that keep its row, failed edits and edits of others while the file could be read: a device stays in the file with its offset and label, and is in its slot after every boot that loads. |
| DallasEdits.AssignAnswers | components/dallas_scan/dallas_scan.cpp:430-471 | An assign arrives in memory and file for a slot there is and a known address, neither of them listed, once it is written, and leaves both alone otherwise. |
| DallasEdits.OffsetAnswers | components/dallas_scan/dallas_scan.cpp:488-514 | An offset arrives likewise, near enough to 0 and while the file could be read. |
| DallasEdits.LabelAnswers | components/dallas_scan/dallas_scan.cpp:525-551 | A label likewise. |
| DallasEdits.ForgetChanges | components/dallas_scan/dallas_scan.cpp:358-398 | There is something to forget exactly where forgetting changes something. |
| DallasEdits.ForgetAnswers | components/dallas_scan/dallas_scan.cpp:380-422 | A forget arrives once it is written, and leaves memory and file alone otherwise. |
| DallasFailedLoads.EmptyTableFollowsTheBus | components/dallas_scan/dallas_scan.cpp:150-181 | With no file read, the unlisted slots hold the bus's unlisted thermometers in the order they are met, each once, as far as both go. |
| DallasFailedLoads.BootKeepsExactly | components/dallas_scan/dallas_scan.cpp:68-193 | A filed device is in its slot after a boot exactly when the file loaded, or as many unlisted thermometers come before it on the bus as unlisted slots before its own. |
| DallasFailedLoads.AFailedLoadMoves | components/dallas_scan/dallas_scan.cpp:68-193 | Two slots, one device filed in the second: a boot that cannot read the file has it in the first, and leaves the file alone. |
| DallasScans.DallasScan.ClearGiven | components/dallas_scan/dallas_scan.cpp:153-157 | Given slots emptied. |
| DallasScans.DallasScan.PlacePins | components/dallas_scan/dallas_scan.cpp:158-163 | Listed addresses put in their slots. |
| DallasScans.DallasScan.PlaceDevice | components/dallas_scan/dallas_scan.cpp:164-180 | A device in the lowest free slot. |
| DallasScans.DallasScan.BindDevices | components/dallas_scan/dallas_scan.cpp:150-193 | The whole binding, and what is written. |
| DallasScans.DallasScan.LoadTable | components/dallas_scan/dallas_scan.cpp:113-130 | The file's table with what is no thermometer dropped, or blanks. |
| DallasScans.DallasScan.DropListed | components/dallas_scan/dallas_scan.cpp:72-77 | Offsets and labels of listed slots dropped. |
| DallasScans.DallasScan.SaveTable | components/dallas_scan/dallas_scan.cpp:622-637 | Written through the slot file, or not. |
| DallasScans.DallasScan.Setup | components/dallas_scan/dallas_scan.cpp:68-79 | A boot. |
| DallasScans.DallasScan.StoreOrRollBack | components/dallas_scan/dallas_scan.cpp:554-566 | Written, or memory exactly as it was. |
| DallasScans.DallasScan.AssignAndSave | components/dallas_scan/dallas_scan.cpp:452-471 | An assign; a failed write leaves everything as it was. |
| DallasScans.DallasScan.HasSomething | components/dallas_scan/dallas_scan.cpp:358-366 | Whether a forget would empty anything. |
| DallasScans.DallasScan.ForgetAndSave | components/dallas_scan/dallas_scan.cpp:380-422 | A forget; a failed write leaves everything as it was. |
| DallasScans.DallasScan.SetOffsetAndSave | components/dallas_scan/dallas_scan.cpp:488-514 | An offset, refused for listed slots and while the file could not be read; a failed write leaves everything as it was. |
| DallasScans.DallasScan.SetLabelAndSave | components/dallas_scan/dallas_scan.cpp:525-551 | A label, likewise. |

## Left out

- Floating-point rounding and the width of counters that cannot wrap within a device's uptime: run tokens at 32 bits, milliseconds at 64.
- The thermostat hub's files: a Save is written or not by a flag, names are taken or not by a flag, ids are ranks in their order, and which free entity of the pool is taken is not distinguished; the debounce of writes and the resync with Home Assistant are not modelled.
- A file from a newer firmware is a flag that refuses edits; what it holds is not modelled.
- The hub holds claims as values and the control loop as objects; the two are joined by the relay's life (`HubLives.EveryRelayLives` takes passes as driving or cutting out each relay, `ControllerSafety.PassIsLife` shows that a pass is just that), not by one shared heap.
- "No two enabled thermostats name one relay" is proved as kept by every mutator, not established by boot: files edited by hand may break it.
- Publishing, traits and presets shown on the entity are not modelled, and neither is the reason a calibration ended.
- Calibration rules' factors and the clamping of their gains to the parameter table.
- A switch claim's missing switch, and logging everywhere.
- What a rule's switch and thermostat actions do to the device, and the compiling of triggers and conditions from their configuration.
- RuleFiles.RuleFolder.NormalizeFilenames: assumes every write succeeds and no refused file is where a rule belongs; the branches that leave a rule in place after a failed write are not modelled.
- The JSON library under the slot file: a list is what it hands out, and a number is the real number the text denotes. Storage in preferences, with its two records flushed apart, is not modelled; neither is the conversion of scratch pads to degrees.
- CRC-32 and CRC-8: any function of the bytes; the JEEFS walk holds for each of them.
- The EEPROM's 5 ms write cycle and device addressing above 256 bytes on one-byte parts, which the driver refuses.
- Time zones and leap seconds in the clock; which rules a fired second starts.
- NTP servers, the display menu, firmware updates, crash reports, board records, the Modbus probe script, the web server and code generation: not part of this model.
