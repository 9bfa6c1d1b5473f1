# FoxESS charger controller: a verified model

This project models the safety logic of a Home Assistant integration for FoxESS EV
chargers, and proves what that logic keeps over whole runs.  Five parts of the
integration are modelled, each in the form its source has.

- **The charging controller** (`Intent`, `Evidence`, `Telemetry`, `Unplug`, `LinkHealth`,
  `Journal`, `Controller`, `JournalTheorems`, `Obligations`, `Reports`, `LinkTheorems`,
  `LinkExample`, `Duties`).  The controller
  is a class whose fields are updated step by step.  Every await is a call of `Await`:
  there, commands from other tasks may change the intent without the lock, and the clock
  moves on.  The charger is nondeterministic: a read returns anything or nothing, a write
  may be applied, ignored, refused or lost.  Each run leaves a ghost journal of intent
  changes, writes, read-backs and frames.  `Journal` says which entry may come next in
  which state; the class is proved to make only such entries, in any interleaving; the
  theorems then speak about the entries of a whole run and mention no bookkeeping.
- **The guarded energy counters** (`EnergyGuard`, `EnergyTracker`, `EnergyTheorems`), on
  real kilowatt-hours and seconds.
- **Logical sessions** (`Session`, and `Accounting`, which joins them to the counters).
- **The Modbus TCP client and its async transport** (`ModbusClient`, `Transport`): a byte
  stream with late replies, a wrapping transaction ID, and a lock that survives
  cancellation.  The frame layout is that of section 3.1.3 of the MODBUS Messaging on
  TCP/IP Implementation Guide V1.0b; the function codes are those of sections 6.3, 6.6
  and 6.12 and the exception reply that of section 7 of the MODBUS Application Protocol
  Specification V1.1b3.
- **Storage** (`Storage`, `StorageSaves`): three files, any JSON in them, saves that fail,
  land although they raised, cross each other or are torn by a crash.

`dafny verify dfyconfig.toml` checks the whole project.

## What is not as promised

Where the code does less than its documentation (or a natural reading of it) says, the
model follows the code, a lemma gives a concrete run, and the exact condition is proved.

- A save of a pause that got as far as its session file protects a later load, unless
  the legacy files cannot be read (`StorageSaves.UnreadableFilesForgetPause`), or a record
  with the other paused flag was saved while an earlier save had its state write still
  ahead (`StorageSaves.CrossedSavesForgetPause`).  `TornSaveIsSafe` holds for every other
  crossing of saves; `TornSaveExactly` is the condition for every disk.
- A save that reports success is what a load returns, unless an earlier write raised and
  landed all the same (`StorageSaves.LandedFailureForgetsPause`); `SaveIsLoaded` has the
  condition.  The controller relies on it: a restart is not to disagree with what was
  applied.
- The rolling-window check is skipped when no time passed in the window
  (`EnergyTheorems.InstantRiseEscapes`, a clock that stands still over five polls);
  `NetRiseIsBounded` has the condition, and `NetRiseIsBoundedInRuns` says that polls at
  different clock times meet it.
- "Every frame" between two healthy refreshes leaves out the frame of a refresh that an
  exception cut short.  Only a session stuck in starting cuts a refresh short, so this
  takes an explicit enable between the two (`LinkTheorems.CommsLatchRelease`).
  `LinkExample.CutShortRefreshIsInvisible` is such a run; nothing else looked at the
  charger while the session was stuck.
- The undo of a failed command compares values, not commands, so it also takes back a
  newer command that asked for the same value (`Intents.UndoCancelsNewerEqualCommand`);
  `NewerCommandsSurvive` has the condition.
- The controller takes power limits up to 1000, the store only up to 220
  (`Storage.ExportRoundTrip`): the save of a larger one is refused.

## Model

| member | source | states |
|---|---|---|
| `Evidence.ReadPathsAgree` | custom_components/foxess_charger/controller.py:453-462 | the command/refresh read and the poll's decoded block judge every hardware state alike: masking unknown enum values never turns a frame into evidence, or out of it |
| `Telemetry.BookkeepingMeans` | custom_components/foxess_charger/controller.py:494-526 | the bad-run counter, its start time and the recovery candidate are exactly the unbroken runs that end the observation history |
| `Telemetry.ProtectionSwitches` | custom_components/foxess_charger/controller.py:506-525 | one more frame switches the protection on exactly if it completes an invalid run of two frames spanning the grace, and off exactly if it completes an agreeing valid run of a second |
| `Telemetry.ProtectionIsHistorical` | custom_components/foxess_charger/controller.py:494-526 | for every history the streaming state refines a predicate on the whole history (some frame tripped it, no later frame recovered it) |
| `Unplug.ReleaseNeedsUnplug` | custom_components/foxess_charger/controller.py:622-651 | a released pause was preceded by an unbroken run of cable-out looks spanning a second, with neither latch, Stop nor session at any look since |
| `Unplug.UnplugReleases` | custom_components/foxess_charger/controller.py:645-651 | conversely such a history always releases the pause |
| `Unplug.AdoptionIsHistorical` | custom_components/foxess_charger/controller.py:639-644 | a session is adopted exactly when it is seen in an ordinary pause that such a history released |
| `LinkHealth.ReleaseNeedsHealthyLink` | custom_components/foxess_charger/controller.py:1013-1036 | a comms latch is released only on a healthy refresh at least 120 s after another, with everything between them that reached the check healthy |
| `LinkHealth.HealthyLinkReleases` | custom_components/foxess_charger/controller.py:1028-1036 | conversely such a history does release, at the latest on that refresh |
| `LinkExample.CutShortRefreshIsInvisible` | custom_components/foxess_charger/controller.py:926-928 | an accepted run: a comms latch is released on two healthy refreshes, and between them a refresh that its watchdog cut short looked at a charger about to charge; explicit enables were issued between them |
| `LinkHealth.ReleaseNeedsEveryFrame` | custom_components/foxess_charger/controller.py:1019-1036 | from the first of the two refreshes on every single look was healthy exactly if no refresh was cut short from there on |
| `Intents.PositiveWire` | custom_components/foxess_charger/controller.py:347-363 | a positive value derives exactly from an intent that permits output with nothing protective in the way, and is then that intent's own limits, at least 14 |
| `Intents.ZeroWire` | custom_components/foxess_charger/controller.py:356-363 | a zero never goes out with a current |
| `Intents.ZeroExactly` | custom_components/foxess_charger/controller.py:347-363 | zero is what goes out exactly if the intent asks for it or something protective forces it, and neither a Stop nor an unplugged cable silences the setpoints; those two write nothing |
| `Intents.UndoIsProtective` | custom_components/foxess_charger/controller.py:389-391 | undoing an unsaved raise never turns charging on, never permits more than before or now, and never clears a latch or the Stop fallback |
| `Intents.UndoInverts` | custom_components/foxess_charger/controller.py:385-391 | with nothing interleaved the undo restores every field but the revision |
| `Intents.UndoCancelsNewerEqualCommand` | custom_components/foxess_charger/controller.py:389-391 | a concrete case: the per-field undo of an older failed command takes back a newer command that asked for the same value |
| `Intents.NewerCommandsSurvive` | custom_components/foxess_charger/controller.py:379-391 | exactly when whatever was asked for after a command survives its undo: when on no field both asked for the same value, unless that value was there before |
| `Journal.EntryKeepsOrder` | custom_components/foxess_charger/controller.py:816-822 | every permitted entry keeps the state in order: a confirmed Stop with no explicit enable since is in force, and nothing is counted or stamped later than the present |
| `Journal.PlanIsFit` | custom_components/foxess_charger/controller.py:932-968 | whatever a refresh plans fits the intent and the frame it rests on; its first write is the one due, and the positive value it heads for is the one it must not end without |
| `Journal.UndoPermitted` | custom_components/foxess_charger/controller.py:379-392 | an undo is always a permitted, reducing change |
| `JournalTheorems.StateIsHistory` | custom_components/foxess_charger/controller.py:225-262 | intent, telemetry, unplug, link and safety state of a run are functions of the entries so far |
| `JournalTheorems.SetpointsFollowIntent` | custom_components/foxess_charger/controller.py:442-479 | in every interleaving a dispatched 0x3002 is 0 or the limit of the intent current at that moment, enabled, unlatched, not stopped, not released, unprotected and at least 14; a dispatched 0x3001 is that intent's current limit under the same flags |
| `JournalTheorems.PositiveWritesRestOnFrames` | custom_components/foxess_charger/controller.py:773-787 | every positive 0x3002 rests on a valid frame of its own lock-held operation (a refresh: its opening frame, showing a session; an apply: its latest, not refusing), fault-free unless an explicit enable came after it |
| `JournalTheorems.WritesHoldTheLock` | custom_components/foxess_charger/controller.py:437-440 | every register write is made inside an operation that has begun, with no other operation beginning or ending in between |
| `JournalTheorems.EnabledOnlyOnRequest` | custom_components/foxess_charger/controller.py:1202-1220 | after initialization `enabled` turns on only by an explicit enable or by adopting a session after a confirmed unplug, undisturbed since |
| `JournalTheorems.LatchSurvives` | custom_components/foxess_charger/controller.py:528-544 | a latch with any cause but lost communications, and a Stop fallback, survive every step up to the next explicit enable |
| `LinkTheorems.TimerMeans` | custom_components/foxess_charger/controller.py:1019-1036 | a running release timer dates from a healthy refresh; every link check since was healthy or of a refresh cut short, and without an explicit enable since the latch is still set |
| `LinkTheorems.LookedAgain` | custom_components/foxess_charger/controller.py:596-613 | a poll or a refresh looks at one frame; it looks again only after it withdrew the enable of a session stuck in starting on that frame |
| `LinkTheorems.CommsLatchRelease` | custom_components/foxess_charger/controller.py:1013-1036 | a comms latch goes only by an explicit enable, or on two healthy refreshes 120 s apart or more with `enabled` left false; every frame a poll or refresh looked at between them was valid, fault-free and not drawing unless an explicit enable was issued between them, and they all were exactly if no refresh was cut short |
| `JournalTheorems.NoSetpointAfterStop` | custom_components/foxess_charger/controller.py:816-820 | after a confirmed Stop neither setpoint register is written until the next explicit enable |
| `JournalTheorems.StopOnlyWhilePaused` | custom_components/foxess_charger/controller.py:813-816 | every 0x4001 write has value 2 and happens while the intent itself asks for zero |
| `JournalTheorems.HoldIsBounded` | custom_components/foxess_charger/controller.py:950-966 | from the first held refresh to any later held one with no confirmed write and no recovery between them, less than the grace has passed |
| `Obligations.FaultIsAnswered` | custom_components/foxess_charger/controller.py:528-544 | nothing comes between a fault frame and its permanent latch, nor between the latch and the protective zero |
| `Obligations.ZeroDecisionIsWritten` | custom_components/foxess_charger/controller.py:932-979 | a refresh that decides on zero writes zero before anything else can happen |
| `Obligations.PositiveDecisionIsWritten` | custom_components/foxess_charger/controller.py:935-979 | what a refresh that decides on a positive value writes first: the current, or the power if there is none, for a session frame; zero for a valid frame without session; after an unreadable frame nothing is due (that the power follows: `Duties.PositiveRefreshWritesAll`) |
| `Obligations.FlyingIsHistory` | custom_components/foxess_charger/controller.py:1168-1175 | the explicit enables in flight are those issued less those that ended |
| `Obligations.StagedIsHistory` | custom_components/foxess_charger/controller.py:575-591 | whether a start waits for the plug, and all that decides it, is what the entries say: staged, and no session check since saw the cable plugged in with no enable in flight |
| `Obligations.EndedSessionIsRevoked` | custom_components/foxess_charger/controller.py:569-594 | a session check is followed at once by the end of the enable exactly if its valid frame shows no session, the intent permits output, no explicit enable is in flight and no start is staged for the plug |
| `Obligations.JudgedOnItsFrame` | custom_components/foxess_charger/controller.py:923-928 | session check, cable look and link check are about the frame their own operation rests on |
| `Obligations.PollIsWhole` | custom_components/foxess_charger/controller.py:1128-1150 | every poll that ends has checked the link and the session, and tracked the cable unless it withdrew the enable, all on its own frame |
| `Obligations.RefreshIsWhole` | custom_components/foxess_charger/controller.py:917-1011 | every refresh that ends has looked, checked session and cable, decided and checked the link in that order on one frame, or a failed withdrawal of the enable cut it short |
| `Obligations.OverdueHoldGivesZero` | custom_components/foxess_charger/controller.py:950-979 | a refresh whose frame comes the grace after an unended hold began is not held: it dispatches the protective zero |
| `Obligations.EnableNeedsSafety` | custom_components/foxess_charger/controller.py:1204-1206 | no explicit enable is accepted before initialization or while the safety configuration is unconfirmed |
| `Obligations.SafetyNeedsReadBack` | custom_components/foxess_charger/controller.py:874-915 | the safety configuration counts as confirmed only after a validity of 1..180 s and the 6 A fallback were read back in the same operation |
| `Reports.SettlingIsHistory` | custom_components/foxess_charger/controller.py:676-690 | the evidence gathered about a pause is exactly what the entries of the operation show |
| `Reports.ConfirmedPause` | custom_components/foxess_charger/controller.py:746-753 | an uninterleaved pause that returns confirmed had 0x3002 read back as 0 after its write, then only quiet frames for a second or more (the stricter set after a Stop), the last of them its latest frame |
| `Reports.ConfirmedZero` | custom_components/foxess_charger/controller.py:998-1008 | a refresh that counts as confirming its zero wrote zero and then read zero back, with no output written since |
| `Reports.ConfirmedWrites` | custom_components/foxess_charger/controller.py:974-995 | a refresh that ends a recovery hold wrote something after its decision, and every write since was read back with its value |
| `Reports.FailedStartLeavesNothing` | custom_components/foxess_charger/controller.py:724-761 | a positive apply that raises, with no enable interleaved, leaves an intent from which no positive value derives |
| `Reports.BackingMeans` | custom_components/foxess_charger/controller.py:736-740 | a setpoint an apply was started for, power or current, counts as read back only after it was written and read back with no other write between |
| `Reports.ReportedIsWritten` | custom_components/foxess_charger/controller.py:736-740 | an apply that is confirmed or staged wrote every setpoint it was started for, current and power, and read each back with no other write between |
| `Reports.StartIsSeen` | custom_components/foxess_charger/controller.py:736-771 | a confirmed start wrote current and power as it was started for, read each back, and ends on a frame showing the session; a staged one did so too, ends on a frame showing the cable out, and waits for the plug |
| `Duties.PositiveRefreshWritesAll` | custom_components/foxess_charger/controller.py:969-979 | a refresh that decides on a positive value, on a frame showing the session, dispatches 0x3001 at once and then 0x3002 before it ends, whatever was read back in between; only a command can keep it from that |
| `Duties.CurrentDecisionIsWritten` | custom_components/foxess_charger/controller.py:969-979 | a refresh with a current and no power writes the current at once |
| `Duties.FailureIsLatched` | custom_components/foxess_charger/controller.py:849-872 | a write given up, or a cap found to be ignored, is followed at once by a comms latch if there is none yet, and then by a zero unless a Stop silences the setpoints |
| `Duties.LatchFollowsItsCause` | custom_components/foxess_charger/controller.py:528-544 | a latch is never set but right after its cause: a fault frame for a permanent one, a failed confirmation for one that may be released |
| `Duties.DrawingIsStopped` | custom_components/foxess_charger/controller.py:827-835 | an operation that looks and sees the charger drawing against the intent sends Stop next |
| `Duties.WithdrawalIsPaid` | custom_components/foxess_charger/controller.py:837-847 | an operation that withdraws the enable and then reports or ends writes a zero before anything else; the zero is read back, or given up (latch) and the charger looked at |
| `Duties.SparedNeedsStop` | custom_components/foxess_charger/controller.py:830-831 | that look is spared only while a Stop is in force |
| `Duties.SupersededByCommand` | custom_components/foxess_charger/controller.py:693-709 | an apply that had something to put on the wire reports superseded only if a command was issued meanwhile |
| `Duties.ZeroApplyIsPaid` | custom_components/foxess_charger/controller.py:730-745 | an apply that finds zero wanted writes it first, and reports only when it was read back, or given up and followed up; only a command can cut that short, after the zero went out |
| `Duties.FailedStartIsWithdrawn` | custom_components/foxess_charger/controller.py:724-761 | a start that failed was withdrawn, or one of its writes was given up |
| `Duties.PauseIsCarriedOut` | custom_components/foxess_charger/controller.py:730-753 | a pause no command interrupts wrote its zero and saw it through; it is confirmed, or it failed, latched, after its zero was given up or Stop was tried |
| `Duties.StopIsSeen` | custom_components/foxess_charger/controller.py:813-819 | a Stop is remembered as confirmed only after it was sent and after frames that all show the charger stopped, a second or more and up to the latest one |
| `Duties.FirstStopHasReason` | custom_components/foxess_charger/controller.py:746-753 | the first Stop of an operation comes right after a look at a drawing charger, or in an apply whose zero was written and read back |
| `Duties.ZeroHasReason` | custom_components/foxess_charger/controller.py:442-479 | no zero is left over from an older intent: it is what the intent derives at that moment, or comes right after a latch, a failed confirmation or a refresh's decision, or its operation withdrew the enable |
| `Duties.IgnoredSetpointsLatch` | custom_components/foxess_charger/controller.py:653-668 | two refreshes a minute or more apart that did not read back what they wrote, with none between that did: the later one declares the cap ignored before its link check, which latches |
| `Duties.RefreshIsJudged` | custom_components/foxess_charger/controller.py:986-996 | a refresh that wrote anything says before its link check whether all of it was read back; only a command can excuse it |
| `Duties.HoldIsHistory` | custom_components/foxess_charger/controller.py:950-966 | the running hold is the first held refresh since the last end of a hold |
| `Duties.HeldExactly` | custom_components/foxess_charger/controller.py:950-966 | a refresh holds its zero back if and only if its frame shows the session, the intent permits it, only the telemetry protection is in the way and no hold has lasted the grace |
| `Duties.SetUpComesFirst` | custom_components/foxess_charger/controller.py:1086-1092 | once the set-up of the safety registers has begun no explicit enable is accepted before the configuration is confirmed |
| `Controller.ChargingController.Issue` | custom_components/foxess_charger/controller.py:372-377 | a command's prologue changes the intent by exactly its fields and one revision, with no lock |
| `Controller.ChargingController.PutBack` | custom_components/foxess_charger/controller.py:389-392 | the undo of an unsaved raise: field by field, only what still has the raised value |
| `Controller.ChargingController.Saved` | custom_components/foxess_charger/controller.py:379-393 | the end of a command's save: an unsaved raise is undone exactly when it raises what the intent now permits, a pause never |
| `Controller.ChargingController.BeginEnable` | custom_components/foxess_charger/controller.py:1202-1220 | an explicit enable sets enabled and the limit, clears latch, Stop and comms cause, keeps the current, and is in flight from then on |
| `Controller.ChargingController.EndEnable` | custom_components/foxess_charger/controller.py:1168-1175 | an explicit enable that ends is no longer in flight; nothing else moves |
| `Controller.ChargingController.BeginPause` | custom_components/foxess_charger/controller.py:1226-1228 | a pause clears `enabled` and nothing else |
| `Controller.ChargingController.BeginSetPower` | custom_components/foxess_charger/controller.py:1154-1160 | a limit change sets the power limit and nothing else |
| `Controller.ChargingController.BeginSetCurrent` | custom_components/foxess_charger/controller.py:1162-1166 | a limit change sets the current limit and nothing else |
| `Controller.ChargingController.SaveIntent` | custom_components/foxess_charger/controller.py:406-421 | what is handed to the store is the intent at that moment; a failed save is pending; only commands have moved the intent meanwhile |
| `Controller.ChargingController.Read` | custom_components/foxess_charger/controller.py:446-451 | a read is recorded last and counts as evidence for what it shows; only commands have moved the intent |
| `Controller.ChargingController.ReadStatus` | custom_components/foxess_charger/controller.py:453-462 | the block is decoded as it was read; a short or failed one is a missing observation; only commands have moved the intent |
| `Controller.ChargingController.Dispatch` | custom_components/foxess_charger/controller.py:464-479 | a dispatched write is permitted and recorded when it goes out; afterwards only commands have moved the intent |
| `Controller.ChargingController.CheckWire` | custom_components/foxess_charger/controller.py:442-444 | superseded exactly if the latest intent derives another wire |
| `Controller.ChargingController.Send` | custom_components/foxess_charger/controller.py:464-479 | a write goes out exactly if its wire is still the latest; otherwise nothing changes |
| `Controller.ChargingController.WriteOnce` | custom_components/foxess_charger/controller.py:481-484 | the write goes out exactly if its wire is the latest; it is read back then, and good exactly if that read-back shows the value |
| `Controller.ChargingController.WriteConfirmed` | custom_components/foxess_charger/controller.py:486-492 | at least one attempt if its wire is the latest at first; fine only with the read-back, dropped only for another wire, raised only after the deadline with the last write unconfirmed |
| `Controller.ChargingController.TrackTelemetry` | custom_components/foxess_charger/controller.py:504-525 | the in-place bookkeeping is the telemetry step function; the end of the protection ends a hold |
| `Controller.ChargingController.NoteTelemetry` | custom_components/foxess_charger/controller.py:494-526 | one frame entry, and true exactly if the protection switched |
| `Controller.ChargingController.SetLatch` | custom_components/foxess_charger/controller.py:859-865 | the latch takes effect in memory, and the zero is owed, before anything is saved |
| `Controller.ChargingController.LatchFault` | custom_components/foxess_charger/controller.py:849-872 | latched afterwards unless an enable came in between; permanent unless only communications failed; never weakens another cause; whatever was owed, latch or zero, has gone out |
| `Controller.ChargingController.NoteFault` | custom_components/foxess_charger/controller.py:528-544 | latches exactly on fault evidence while not already permanently latched |
| `Controller.ChargingController.Observe` | custom_components/foxess_charger/controller.py:546-553 | the operation rests on the new frame and a fault in it is dealt with |
| `Controller.ChargingController.Update` | custom_components/foxess_charger/controller.py:372-377 | a reducing change takes effect, is what gets saved, and survives that save unless a command came in between |
| `Controller.ChargingController.AwaitEvidence` | custom_components/foxess_charger/controller.py:676-690 | quiet exactly on settled evidence, about the zero and about a Stop; not quiet only when another wire is wanted, which is noticed before the next look, or time is up |
| `Controller.ChargingController.StopRound` | custom_components/foxess_charger/controller.py:813-825 | Stop is sent unless the intent stopped asking for zero; then it is remembered on settled evidence, or out of time and latched, or another try with time left |
| `Controller.ChargingController.StopSequence` | custom_components/foxess_charger/controller.py:808-825 | Stop is sent whenever the intent asks for zero; fine only on settled evidence with the fallback set, raised only after the timeout with the latch set |
| `Controller.ChargingController.StopIfDrawing` | custom_components/foxess_charger/controller.py:827-835 | unless a Stop is in force it looks, and a charger seen drawing gets a Stop; otherwise nothing is written |
| `Controller.ChargingController.Revoke` | custom_components/foxess_charger/controller.py:837-847 | the enable is withdrawn, and the zero is on the wire and read back; or it was tried until the timeout, the fault is latched and whatever draws is stopped |
| `Controller.ChargingController.PutZero` | custom_components/foxess_charger/controller.py:841-847 | a zero that is due is written and read back, or tried up to the timeout, given up, latched and followed up |
| `Controller.ChargingController.LatchAndStop` | custom_components/foxess_charger/controller.py:845-847 | the fault is latched, the charger looked at, and what draws stopped |
| `Controller.ChargingController.Preflight` | custom_components/foxess_charger/controller.py:773-787 | fine only on a valid, fault-free, not refusing latest frame; raised only for a latch, unreadable telemetry, a refusal, or no readable frame up to the deadline; dropped at once if another wire is wanted, and only after a command |
| `Controller.ChargingController.ConfirmSession` | custom_components/foxess_charger/controller.py:789-806 | true only on a session frame, false only on a cable-out frame; raised only for a reason to abort or when neither was seen up to the deadline |
| `Controller.ChargingController.JudgeStart` | custom_components/foxess_charger/controller.py:555-561 | a look aborts exactly on a latch, unreadable telemetry or a refusing status |
| `Controller.ChargingController.WriteOrGiveUp` | custom_components/foxess_charger/controller.py:730-745 | fine only with every setpoint read back; raised only with the write given up and the latch set; a zero that was due went out in any case |
| `Controller.ChargingController.WriteWire` | custom_components/foxess_charger/controller.py:730-740 | current and then power, each with its own confirmation; fine only with both read back |
| `Controller.ChargingController.GiveUp` | custom_components/foxess_charger/controller.py:741-745 | latched unless an enable came in between; a zero is then followed up by a look and a Stop |
| `Controller.ChargingController.SettlePause` | custom_components/foxess_charger/controller.py:746-753 | fine only on settled evidence, given up at once if something else is wanted; Stop is tried when there is none by the end of the pause timeout, and not before; raised leaves the latch set unless a command came |
| `Controller.ChargingController.ApplyZero` | custom_components/foxess_charger/controller.py:730-753 | however it ends it may be reported so: see `Duties.ZeroApplyIsPaid` and `Duties.PauseIsCarriedOut` |
| `Controller.ChargingController.ApplyPositive` | custom_components/foxess_charger/controller.py:724-771 | raised only after the enable was withdrawn or a write given up, dropped only after a command; fine only with every setpoint read back, on a session or unplugged frame, with staging, authorization and watchdog set accordingly |
| `Controller.ChargingController.ApplyLocked` | custom_components/foxess_charger/controller.py:716-771 | whatever it reports is a permitted report |
| `Controller.ChargingController.NoteStarted` | custom_components/foxess_charger/controller.py:762-769 | what a start leaves behind: staging, authorization and the watchdog's start |
| `Controller.ChargingController.OpApply` | custom_components/foxess_charger/controller.py:693-714 | exactly one apply, begun, reported and ended; what it returns is what it reported, except that an overtaken command returns superseded |
| `Controller.ChargingController.ReviewSession` | custom_components/foxess_charger/controller.py:569-594 | the in-place review: what is remembered, staged, spawned, and when the session is over |
| `Controller.ChargingController.NoteSession` | custom_components/foxess_charger/controller.py:569-594 | revoked exactly if the enable outlived its session and nothing explicit is responsible |
| `Controller.ChargingController.WatchStarting` | custom_components/foxess_charger/controller.py:596-613 | the watchdog fires exactly after its bound in status 2 without drawing |
| `Controller.ChargingController.NoteStarting` | custom_components/foxess_charger/controller.py:596-620 | a stuck start is withdrawn; otherwise nothing changes and the watchdog runs exactly while a start is under way |
| `Controller.ChargingController.ReviewEnable` | custom_components/foxess_charger/controller.py:926-927 | what a frame means for an enable: session review and watchdog both ran; unless one withdrew it the intent is as it was |
| `Controller.ChargingController.MoveCable` | custom_components/foxess_charger/controller.py:632-651 | the in-place cable bookkeeping is the unplug step function |
| `Controller.ChargingController.TrackUnplug` | custom_components/foxess_charger/controller.py:622-651 | adopts and spawns exactly as the unplug automaton says |
| `Controller.ChargingController.ChoosePlan` | custom_components/foxess_charger/controller.py:932-968 | the branches of the refresh decision are the plan function, and move hold and authorization accordingly |
| `Controller.ChargingController.Decide` | custom_components/foxess_charger/controller.py:932-968 | the plan fits, its first write is due before anything else, and its positive value must be written before the refresh ends |
| `Controller.ChargingController.RefreshSetpoints` | custom_components/foxess_charger/controller.py:969-1003 | what was read back is judged and everything decided on is written unless a command overtook it; ok and the confirmed zero say exactly whether all of it was read back |
| `Controller.ChargingController.RefreshWrites` | custom_components/foxess_charger/controller.py:969-992 | every setpoint of the plan goes out, the second even if the first was not read back; `matched` exactly if all were |
| `Controller.ChargingController.NoteSent` | custom_components/foxess_charger/controller.py:993-996 | the outcome is recorded: a full read-back ends hold and mismatches, anything else counts |
| `Controller.ChargingController.LatchMismatch` | custom_components/foxess_charger/controller.py:1003-1006 | latched exactly if the mismatches are persistent, and the count starts over; otherwise nothing changes |
| `Controller.ChargingController.PersistentExactly` | custom_components/foxess_charger/controller.py:662-668 | two or more in a row, over the reported validity if that is shorter than sixty seconds, and over sixty seconds otherwise |
| `Controller.ChargingController.NoteReadback` | custom_components/foxess_charger/controller.py:653-660 | mismatches are counted from the first one, and one match clears them |
| `Controller.ChargingController.MoveLinkTimer` | custom_components/foxess_charger/controller.py:1019-1035 | the in-place release timer is the link step function |
| `Controller.ChargingController.NoteLinkHealth` | custom_components/foxess_charger/controller.py:1013-1036 | releases exactly when the link automaton fires, leaving charging off |
| `Controller.ChargingController.RefreshInterval` | custom_components/foxess_charger/controller.py:365-369 | exactly half of the validity up to a minute, half a minute beyond, the retry delay without one |
| `Controller.ChargingController.AcceptFixedValidity` | custom_components/foxess_charger/controller.py:902-915 | exactly after an illegal-value refusal and a read-back of 1..180 s |
| `Controller.ChargingController.ConfigureSafety` | custom_components/foxess_charger/controller.py:874-900 | the block on enabling is lifted only with both registers read back, and always when the fallback current was written and read back last |
| `Controller.ChargingController.OpenRefresh` | custom_components/foxess_charger/controller.py:918-925 | a refresh rests on the frame it opens with, a fault in it is dealt with, and a safety set-up that was due has been tried |
| `Controller.ChargingController.Prepare` | custom_components/foxess_charger/controller.py:919-922 | a pending save is tried again, and a safety set-up that is due is tried |
| `Controller.ChargingController.ReadValidity` | custom_components/foxess_charger/controller.py:929-931 | the validity is read back on every refresh, and taken over exactly if readable |
| `Controller.ChargingController.ReviewFrame` | custom_components/foxess_charger/controller.py:926-928 | session, watchdog and cable on that frame; cut short only after a withdrawal |
| `Controller.ChargingController.OpRefresh` | custom_components/foxess_charger/controller.py:917-1011 | exactly one refresh, begun and ended; a charger drawing against the intent is left with a correction under way (what it consists of: `Obligations.RefreshIsWhole`, `Duties.PositiveRefreshWritesAll`) |
| `Controller.ChargingController.MaybeCorrect` | custom_components/foxess_charger/controller.py:1038-1045 | a correction is queued exactly if the charger draws against the intent, and only one at a time |
| `Controller.ChargingController.OpPoll` | custom_components/foxess_charger/controller.py:1128-1152 | exactly one poll, begun and ended; whatever changed what the wire should carry is followed by a refresh, and a charger drawing against the intent by a correction |
| `Controller.ChargingController.OpObserve` | custom_components/foxess_charger/controller.py:1193-1200 | authorizes exactly on a frame showing the session, with no latch |
| `Controller.ChargingController.RegisterOnce` | custom_components/foxess_charger/controller.py:1252-1257 | good only on the read-back that proves the value |
| `Controller.ChargingController.OpRegister` | custom_components/foxess_charger/controller.py:1243-1264 | confirmed only on the read-back that proves the value; the reported validity changes exactly on a confirmed validity write |
| `Controller.ChargingController.SetRegister` | custom_components/foxess_charger/controller.py:1236-1241 | anything outside the allowed registers and bounds is refused with no journal entry at all |
| `Controller.ChargingController.constructor` | custom_components/foxess_charger/controller.py:200-282 | a fresh controller: initial intent, nothing protective, an empty journal |
| `Controller.ChargingController.RestoreNothing` | custom_components/foxess_charger/controller.py:1049-1053 | a first install looks at the charger and is enabled exactly if that frame shows a session |
| `Controller.ChargingController.RestoreSaved` | custom_components/foxess_charger/controller.py:1060-1085 | a saved enable is kept exactly with a saved limit, a session on the hardware and no zero cap in force, which is read; everything else comes back as saved |
| `Controller.ChargingController.Restore` | custom_components/foxess_charger/controller.py:1049-1085 | whatever was saved, enabled only for a session the hardware shows; malformed is paused |
| `Controller.ChargingController.AdoptCap` | custom_components/foxess_charger/controller.py:1096-1106 | a session adopted without limits reads the cap and keeps exactly a credible one, else gets zero |
| `Controller.ChargingController.LimitToDevice` | custom_components/foxess_charger/controller.py:1107-1114 | a limit above the device pauses and is dropped, never clamped |
| `Controller.ChargingController.ReadMaxPower` | custom_components/foxess_charger/controller.py:1094-1096 | the device's maximum is read, and taken over exactly if from 14 to 1000 |
| `Controller.ChargingController.Recover` | custom_components/foxess_charger/controller.py:1048-1114 | the state commands first see: enabled only for a seen session with a limit within the device's; the safety set-up ran if asked for |
| `Controller.ChargingController.GetReady` | custom_components/foxess_charger/controller.py:1115-1116 | the restored intent becomes a new revision when commands are first accepted |
| `Controller.ChargingController.Settle` | custom_components/foxess_charger/controller.py:1115-1117 | any number of operations may get the lock before and after the restored intent is saved; the last one is the first refresh |
| `Controller.ChargingController.Initialize` | custom_components/foxess_charger/controller.py:1048-1122 | restoring, safety set-up, whatever is served meanwhile and the first refresh, which comes last, consist of permitted entries |
| `Controller.ChargingController.Run` | custom_components/foxess_charger/controller.py:1124-1264 | whatever was saved, whatever the charger answers, whenever commands arrive: every entry of the run was permitted when it was made |
| `EnergyGuard.MaxPower` | custom_components/foxess_charger/energy.py:99-102 | rates are judged by at least the rated and at most one and a half times the rated power |
| `EnergyGuard.LifetimeNeverDrops` | custom_components/foxess_charger/energy_guard.py:158-170 | an accepted lifetime reading is never below the last one |
| `EnergyGuard.StepsDelivered` | custom_components/foxess_charger/energy_guard.py:43-55 | flooring to whole 0.1 kWh steps adds less than one step to what was delivered |
| `EnergyGuard.PhysicalReadingAccepted` | custom_components/foxess_charger/energy_guard.py:143-182 | the per-reading check never rejects a physically possible reading, at any poll interval |
| `EnergyGuard.PhysicalWindowAccepted` | custom_components/foxess_charger/energy_guard.py:185-214 | the window check never rejects a physically possible stretch |
| `EnergyTracking.TrimDropsOld` | custom_components/foxess_charger/energy.py:137-139 | trimming drops exactly the leading samples older than the window |
| `EnergyTracking.EnergyTracker.constructor` | custom_components/foxess_charger/energy.py:41-53 | nothing known about any counter |
| `EnergyTracking.EnergyTracker.TrackCounterReset` | custom_components/foxess_charger/energy.py:158-188 | the in-place low-reading bookkeeping is the reset function; other counters untouched |
| `EnergyTracking.EnergyTracker.Trimmed` | custom_components/foxess_charger/energy.py:138-139 | the popping loop leaves exactly the trimmed window |
| `EnergyTracking.EnergyTracker.ExtendWindow` | custom_components/foxess_charger/energy.py:135-151 | append, trim, judge; an overrun empties the window |
| `EnergyTracking.EnergyTracker.AcceptPlausible` | custom_components/foxess_charger/energy.py:127-156 | a plausible reading restarts or extends the window and is taken over unless the window overruns |
| `EnergyTracking.EnergyTracker.Recover` | custom_components/foxess_charger/energy.py:117-126 | a low lifetime reading is rejected, or takes over the new base with its offset |
| `EnergyTracking.EnergyTracker.Sanitize` | custom_components/foxess_charger/energy.py:104-156 | one reading moves its counter exactly by the step function (what that accepts, in numbers: `EnergyTheorems.RiseIsAcceptedExactly`, `FallIsAcceptedExactly`, `LowReadingExactly`), no other counter, and marks a change dirty |
| `EnergyTracking.EnergyTracker.ApplyOne` | custom_components/foxess_charger/energy.py:81-97 | an accepted reading passes, anything else falls back to the last good value or disappears |
| `EnergyTracking.EnergyTracker.Apply` | custom_components/foxess_charger/energy.py:76-97 | every counter of an observation is guarded, and what is published is each one's last good value |
| `EnergyTracking.EnergyTracker.Export` | custom_components/foxess_charger/energy.py:63-70 | exactly the last good values, with age and offset |
| `EnergyTracking.EnergyTracker.Restore` | custom_components/foxess_charger/energy.py:55-61 | exactly the stored baselines, aged by the wall clock |
| `EnergyTheorems.WindowStaysSound` | custom_components/foxess_charger/energy.py:116-156 | in every reachable state the window is time-sorted, nondecreasing, at most 1800 s long and ends in the last good reading |
| `EnergyTheorems.AcceptedRises` | custom_components/foxess_charger/energy.py:129-133 | an accepted decrease is a session-counter reset, which restarts the window |
| `EnergyTheorems.RiseIsAcceptedExactly` | custom_components/foxess_charger/energy_guard.py:156-182 | a reading not below the last good one is taken over if and only if it is within 100000 kWh, rose by at most 0.1 kWh plus one and a half times the rated energy of the time since, and the window allows it |
| `EnergyTheorems.FallIsAcceptedExactly` | custom_components/foxess_charger/energy_guard.py:158-174 | a session counter takes over a lower reading exactly when it restarts; a lifetime counter only on a confirmed reset |
| `EnergyTheorems.LowReadingExactly` | custom_components/foxess_charger/energy.py:158-188 | what a low lifetime reading does to a suspected reset, in numbers, and when it confirms it |
| `EnergyTheorems.NoJumpIsPublished` | custom_components/foxess_charger/energy.py:104-156 | over any run a reading that rose further than that is dropped and leaves what is published as it was, a confirmed reset aside |
| `EnergyTheorems.NetRiseIsBounded` | custom_components/foxess_charger/energy.py:140-151 | right after an acceptance that leaves five samples or more, the net rise is within one quantum plus 1.5 times the rated energy if and only if time passed in the window or it rose by at most a quantum |
| `EnergyTheorems.NetRiseSinceLastIsBounded` | custom_components/foxess_charger/energy.py:140-151 | if the clock moved on since the last good reading, an acceptance that leaves five samples or more keeps the net rise within the allowance |
| `EnergyTheorems.NetRiseIsBoundedInRuns` | custom_components/foxess_charger/energy.py:104-151 | over any run: wherever a reading is accepted later than every earlier poll, the net rise in the window is within the allowance |
| `EnergyTheorems.InstantRiseEscapes` | custom_components/foxess_charger/energy_guard.py:208-214 | a concrete run from a fresh start: five polls at one clock time that each rise by one step are all accepted, and the rise exceeds the allowance |
| `EnergyTheorems.PublishedNeverDrops` | custom_components/foxess_charger/energy.py:76-97 | over any run with any readings and any number of hardware resets the published lifetime counter never decreases nor disappears |
| `EnergyTheorems.CandidateIsHistory` | custom_components/foxess_charger/energy.py:166-177 | a suspected reset is exactly a run of low, nondecreasing, rate-plausible readings with nothing accepted since its first |
| `EnergyTheorems.ResetIsEarned` | custom_components/foxess_charger/energy.py:158-188 | every confirmed reset has at least 20 such readings over at least 600 s behind it, publishes the last good value plus the counts since the first of them, and strictly raises the offset |
| `EnergyTheorems.PhysicalNeverRejected` | custom_components/foxess_charger/energy_guard.py:43-55 | no lifetime reading of a physically possible trace is ever rejected, by either check, for any poll times and length, from a fresh start or a restored baseline |
| `EnergyTheorems.RestoredIsAged` | custom_components/foxess_charger/energy.py:55-70 | export then restore keeps value and offset, ages by the wall clock, and starts a suspected reset over |
| `Sessions.SessionTracker.Start` | custom_components/foxess_charger/session.py:159-166 | a session opens with the guarded counters of its observation |
| `Sessions.SessionTracker.Measure` | custom_components/foxess_charger/session.py:170-187 | the lifetime delta, the session counter where that is stuck or missing, or unknown |
| `Sessions.SessionTracker.Complete` | custom_components/foxess_charger/session.py:168-206 | exactly one record, for the running session |
| `Sessions.SessionTracker.EndForUserPause` | custom_components/foxess_charger/session.py:145-157 | a second call does nothing; a completion needs re-arming |
| `Sessions.SessionTracker.Advance` | custom_components/foxess_charger/session.py:102-136 | one observation moves the tracker exactly by the step function (when that starts and ends a session: `Sessions.EventExactly`), with at most one start and one record |
| `Sessions.InTurn` | custom_components/foxess_charger/session.py:102-157 | no event, an observation or a confirmed user pause, both starts and completes; only an observation starts; an invalid status does neither |
| `Sessions.EventExactly` | custom_components/foxess_charger/session.py:102-157 | an event completes a session exactly if one runs and it is a confirmed pause, a status without a session, or a session status with charging disabled by the user; it starts one exactly if none runs, the status shows one, nothing disabled it and no re-arm is pending unless charging is enabled |
| `Sessions.SessionsAreExact` | custom_components/foxess_charger/session.py:102-157 | the same in every state of every run, and a session is running exactly if one started and no event since has ended it |
| `Sessions.RearmExactly` | custom_components/foxess_charger/session.py:93-157 | re-arming is pending exactly if a user pause ended a session and nothing since has re-armed |
| `Sessions.StartsMatchCompletions` | custom_components/foxess_charger/session.py:102-157 | over any run of observations and confirmed user pauses starts equal completions plus one if a session is running |
| `Sessions.CompletionMatchesItsStart` | custom_components/foxess_charger/session.py:145-206 | a completed session is the one started last; its energy is exactly the lifetime counter's rise, or the session counter's where that is stuck or missing, or unknown; its peak is the highest power seen |
| `Sessions.StartNeedsRearming` | custom_components/foxess_charger/session.py:93-157 | after a user pause, confirmed or seen in a poll, ended a session none starts before an observation with charging enabled again or a valid inactive status |
| `Sessions.EnergiesSumToTheRise` | custom_components/foxess_charger/session.py:168-187 | with a never-decreasing lifetime counter, user pauses carrying any reading published before, the energies measured by it sum to at most its total rise |
| `Accounting.GuardedCounterRises` | custom_components/foxess_charger/coordinator.py:149-151 | what the guard publishes, and what a user pause repeats of it, is such a counter, whatever the registers show |
| `Accounting.SessionsShareTheRise` | custom_components/foxess_charger/coordinator.py:149-227 | so for arbitrary register readings, and sessions ended by the charger or by the user, the session energies sum to at most the rise of the published counter |
| `ModbusTcp.DecodeEncode` | custom_components/foxess_charger/modbus_client.py:365-368 | registers survive encoding and decoding |
| `ModbusTcp.SameFrames` | custom_components/foxess_charger/modbus_client.py:249-262 | whole frames read off a stream of whole frames are exactly its first ones, and the rest is untouched |
| `ModbusTcp.AnswerIsFirstMatch` | custom_components/foxess_charger/modbus_client.py:278-314 | on a stream that begins with whole frames the answer is the first frame with the sent ID, all dropped ones were late, and the rest is left |
| `ModbusTcp.TidsCycle` | custom_components/foxess_charger/modbus_client.py:163-166 | transaction IDs cycle through 0..0xFFFE |
| `ModbusTcp.LateReplies` | custom_components/foxess_charger/modbus_client.py:215-227 | a reply k requests back is late exactly for k = 1..32766, and at 32767 unless the counter wrapped, for every counter position |
| `ModbusTcp.LeadingReplies` | custom_components/foxess_charger/modbus_client.py:215-227 | a reply k requests ahead is never late up to 32767, with the exact boundary beyond |
| `ModbusTcp.LeadingNumbers` | custom_components/foxess_charger/modbus_client.py:215-227 | nor is any ID 1 to 32767 ahead as a number |
| `ModbusTcp.Delivered` | custom_components/foxess_charger/modbus_client.py:346-368 | a reply with 1 to 125 registers is accepted and decodes to exactly them |
| `ModbusTcp.ReadRequestLayout` | custom_components/foxess_charger/modbus_client.py:346-350 | a read request byte by byte: header, function 3, address, count |
| `ModbusTcp.WriteRequestLayout` | custom_components/foxess_charger/modbus_client.py:370-388 | a write request byte by byte: function 6 with address and value, or function 16 with address, quantity 1, byte count 2 and value |
| `ModbusTcp.EchoLayout` | custom_components/foxess_charger/modbus_client.py:389-401 | the acknowledgement check, byte by byte |
| `ModbusTcp.RegistersInPlace` | custom_components/foxess_charger/modbus_client.py:365-368 | register i of a reply is the big-endian word at bytes 9+2i and 10+2i |
| `ModbusTcp.Redelivered` | custom_components/foxess_charger/modbus_client.py:352-368 | and nothing but such a reply is accepted |
| `ModbusTcp.Client.RecvExact` | custom_components/foxess_charger/modbus_client.py:183-213 | exactly the next n bytes, however they arrive, unless `recv` fails; no reply yet exactly if time is up before the first byte, and then the stream is untouched |
| `ModbusTcp.Client.TakeTid` | custom_components/foxess_charger/modbus_client.py:163-166 | the next ID of the cycle |
| `ModbusTcp.Client.ReadFrame` | custom_components/foxess_charger/modbus_client.py:278-300 | one whole frame off the stream, unless `recv` fails or no frame can begin like what comes; only a deadline before the first byte keeps the boundary |
| `ModbusTcp.Client.SendRequest` | custom_components/foxess_charger/modbus_client.py:264-277 | an existing connection is reused at its boundary; the frame sent is recorded; a failed send closes the connection |
| `ModbusTcp.Client.AwaitReply` | custom_components/foxess_charger/modbus_client.py:278-327 | drops only whole late frames and returns the matching one; gives up only if `recv` fails or the next frame is malformed or neither late nor the answer; stays open exactly at a boundary |
| `ModbusTcp.Client.Transact` | custom_components/foxess_charger/modbus_client.py:249-327 | between transactions the connection is closed or at a frame boundary, and what was consumed is the late frames and the answer |
| `ModbusTcp.Client.Take` | custom_components/foxess_charger/modbus_client.py:329-363 | the registers exactly if the frame carries as many as asked for; a refusal exactly for our own exception; anything else closes |
| `ModbusTcp.Client.ReadRegisters` | custom_components/foxess_charger/modbus_client.py:337-368 | what goes out is one frame with this transaction ID, function 3, this address and this count, byte by byte; registers are returned exactly if the reply carries that many, each from its own two bytes; a refusal exactly for an exception reply |
| `ModbusTcp.Client.Disconnect` | custom_components/foxess_charger/modbus_client.py:452-455 | the connection is closed |
| `ModbusTcp.Client.WriteRegister` | custom_components/foxess_charger/modbus_client.py:370-401 | what goes out is one frame with this transaction ID, address and value, byte by byte (function 6 or 16); acknowledged exactly if the reply repeats function, address and value or quantity; a refusal exactly for an exception reply |
| `Transport.ModbusRegisterIO.Enter` | custom_components/foxess_charger/transport.py:95-98 | refused exactly once closing was requested |
| `Transport.ModbusRegisterIO.Acquire` | custom_components/foxess_charger/transport.py:98-106 | a worker starts, with the lock, exactly if it launches and closing was not requested in between; otherwise the lock goes back |
| `Transport.ModbusRegisterIO.Cancel` | custom_components/foxess_charger/transport.py:107-117 | a cancelled caller changes neither lock nor worker |
| `Transport.ModbusRegisterIO.ThreadEnds` | custom_components/foxess_charger/transport.py:108-113 | the thread's end does not yet release the lock |
| `Transport.ModbusRegisterIO.Completed` | custom_components/foxess_charger/transport.py:108-114 | the callback releases the lock, whatever became of the caller; a caller still waiting gets its result |
| `Transport.ModbusRegisterIO.RequestClose` | custom_components/foxess_charger/transport.py:151-159 | closing takes effect at once and the disconnect queues behind what is in flight |
| `Transport.ModbusRegisterIO.CloseReturns` | custom_components/foxess_charger/transport.py:159-160 | closed only after a disconnect was carried out |
| `Transport.ModbusRegisterIO.Drive` | custom_components/foxess_charger/transport.py:95-160 | any mix of callers, cancellations and close keeps the log accepted |
| `Transport.OneAtATime` | custom_components/foxess_charger/transport.py:95-117 | between two starts on the wire (a disconnect included) the first one's own thread finished and then its own lock was released |
| `Transport.ReleaseFollowsFinish` | custom_components/foxess_charger/transport.py:108-114 | a lock is released only after its worker's thread finished, with nothing else on the wire in between |
| `Transport.OneReleaseEach` | custom_components/foxess_charger/transport.py:108-116 | locks are released exactly once per worker |
| `Transport.NothingStartsAfterClose` | custom_components/foxess_charger/transport.py:95-101 | no read or write starts after close was requested |
| `Storage.LegacyLimits` | custom_components/foxess_charger/persistence.py:234-253 | whatever the setpoints file holds, only limits in range come out |
| `Storage.LegacyLimitsExactly` | custom_components/foxess_charger/persistence.py:234-253 | a limit comes out of the setpoints file exactly if it stands there, in range; the file is malformed exactly if something else stands where limits belong |
| `Storage.SalvageLimits` | custom_components/foxess_charger/persistence.py:219-232 | whatever record and setpoints hold, only limits in range come out |
| `Storage.SalvageLimitsExactly` | custom_components/foxess_charger/persistence.py:219-232 | what can be trusted of a record's own limits is kept, what cannot is taken from the setpoints file |
| `Storage.RecordIsValid` | custom_components/foxess_charger/persistence.py:97-109 | a record built from limits in range is valid, with the flags it was given |
| `Storage.LoadIsValid` | custom_components/foxess_charger/persistence.py:154-216 | for arbitrary file contents and any unreadable files a load yields a valid record no older than anything this process tried to save, and none exactly on a first install |
| `Storage.LoadExactly` | custom_components/foxess_charger/persistence.py:154-216 | what a load of any files yields, field by field: the stored record, a pause with the limits that can be trusted, or what sound legacy files say one revision on |
| `Storage.LoadAfterAttempt` | custom_components/foxess_charger/persistence.py:196-207 | a record older than what this process tried to save is replaced by a pause with its limits, one revision above that; any other is kept |
| `Storage.ActiveNeedsEvidence` | custom_components/foxess_charger/persistence.py:165-208 | a load charges if and only if a fresh active record is vouched for by the legacy files (or stands alone), or sound readable legacy files saw a session running |
| `Storage.ValidRecordsParse` | custom_components/foxess_charger/controller.py:176-194 | every record a load can yield is accepted by the controller with the same flags |
| `Storage.ExportRoundTrip` | custom_components/foxess_charger/controller.py:337-344 | an exported intent parses back to itself, and the store takes it exactly up to its narrower power bound of 220 |
| `StorageSaves.StepIsSound` | custom_components/foxess_charger/persistence.py:376-390 | saves, crossing ones included, failing, landing or torn, keep every fingerprint in agreement with its record's paused flag, as long as no record with the other paused flag is saved while an earlier save has its state write ahead |
| `StorageSaves.StopFileProtects` | custom_components/foxess_charger/persistence.py:255-294 | with a truthful fingerprint and a readable session file that says stop, no load charges |
| `StorageSaves.TornSaveIsSafe` | custom_components/foxess_charger/persistence.py:376-401 | in any such run, once the session file of a paused, latched or stopped record is on disk, no load that can read it charges, wherever the save was torn |
| `StorageSaves.TornSaveExactly` | custom_components/foxess_charger/persistence.py:165-176 | without that condition, exactly when it charges after all: an active record that remembers that very session file, or neither legacy file readable |
| `StorageSaves.UnreadableFilesForgetPause` | custom_components/foxess_charger/persistence.py:165-174 | a concrete disk: unreadable legacy files count as removed, and the older active record is restored over a pause |
| `StorageSaves.CrossedSavesForgetPause` | custom_components/foxess_charger/persistence.py:376-390 | a concrete run of crossing saves, the second with the other paused flag, after which a fingerprint contradicts its record, and a readable paused session file does not protect |
| `StorageSaves.SaveIsLoaded` | custom_components/foxess_charger/persistence.py:370-390 | a completed save of a new record is exactly what a load returns if and only if the legacy files it skipped really hold what it projected |
| `StorageSaves.StaysFaithful` | custom_components/foxess_charger/persistence.py:370-374 | only a write that raised and landed all the same makes the memory of what was written wrong |
| `StorageSaves.SavedIsLoaded` | custom_components/foxess_charger/persistence.py:370-401 | so after any run without such a write, with failures, crossing saves and restarts, a new record whose save completes is exactly what the next load returns |
| `StorageSaves.LandedFailureForgetsPause` | custom_components/foxess_charger/persistence.py:370-374 | a concrete run: after such a write a pause saved to its end is skipped as already written, and the load charges |
| `StorageSaves.CompleteSaveIsStraight` | custom_components/foxess_charger/persistence.py:376-390 | a save run to its end is its three files put one after the other |
| `StorageSaves.DiskAfterSave` | custom_components/foxess_charger/persistence.py:343-401 | the three files a completed save leaves |
| `StorageSaves.LoadedAfterSave` | custom_components/foxess_charger/persistence.py:154-216 | those files load as that record, those session fields and that re-arm flag |
| `StorageSaves.SaveSurvivesRestart` | custom_components/foxess_charger/persistence.py:376-401 | after a completed save a restart brings back the record, the session's own fields and the re-arm flag |
| `StorageSaves.LimitsRoundTrip` | custom_components/foxess_charger/persistence.py:360-368 | limits go into the setpoints file as they come out again |
| `StorageSaves.TornPauseProtects` | custom_components/foxess_charger/persistence.py:376-401 | wherever the save of a pause is torn, a load finds the files as they were before it, or a pause |
| `StorageSaves.ChargerStorage.AsyncLoad` | custom_components/foxess_charger/persistence.py:154-216 | load: the record, the session's own fields and the re-arm flag, as the load functions say |
| `StorageSaves.ChargerStorage.Proceed` | custom_components/foxess_charger/persistence.py:370-390 | the next file that has to be written, in order, skipping what is taken for written |
| `StorageSaves.ChargerStorage.AsyncSaveController` | custom_components/foxess_charger/persistence.py:392-401 | a malformed record is refused and changes nothing; otherwise the highest revision tried is remembered first |
| `StorageSaves.ChargerStorage.AsyncSaveSession` | custom_components/foxess_charger/persistence.py:403-407 | the session's fields and re-arm flag are what is saved from here on |
| `StorageSaves.ChargerStorage.WriteEnds` | custom_components/foxess_charger/persistence.py:370-374 | only a successful write is remembered as written; a failed one ends its save |

## Left out

- Home Assistant entities, config flow, device triggers, diagnostics, translations and the issue registry: thin adapters.
- Message texts, error strings, counters, `phase`, degraded reasons, ISO timestamps and display rounding: nothing is decided on them.
- Block freshness and the register field tables of the coordinator and the decoder: only the status sets and the status block's layout are used.
- The legacy None/bool Modbus API, `decode_ascii` and the text registers: wrappers over the modelled strict API.
- Logging and the rejection log of the energy guard: bounded lists for display.
- The solar-surplus blueprint: a template outside the controller.
- The refresh loop's pacing and its wake-up event: a refresh may start at any time, which covers every schedule.
- `CancelledError` inside an operation and `async_close`: operations run as owned, shielded tasks; closing lets them drain.
- The command wrappers' replies (a pause that is applied but not saved, a staged value that could not be saved): an apply with any revision may start at any time, which covers every wrapper.
- Floating point: times and energies are reals, so rounding of clock differences is not modelled; `asyncio.sleep` sleeps at least as long as asked.
- Python's equality of `True`, `1` and `1.0` inside compared JSON files: modelled for the schema number, not for whole files.
- The energy baseline file's validation and saving: one independent file without a fingerprint.
- The mapping of client results to the transport's exceptions (refused, unknown outcome, never sent): a case distinction on the results modelled.
- Sessions across a restart: a restored session keeps start time and lifetime total only, and none is restored without a total.
- Controller.ChargingController.Interfere: an explicit enable that had to read the device's maximum first may use any limit from 14 to 1000, since intent changes between that read and the enable are not tied together.
- Controller.ChargingController.Dispatch: a write is one journal entry when it is dispatched; when or whether the charger applies it is not modelled, which is what the read-backs are for.
- Transport.ModbusRegisterIO.Acquire: the lock may go to any queued call, not only to the first, which covers the fair queue.
- StorageSaves.TornSaveIsSafe: leaves out saves of a record with the other paused flag while an earlier save has its state write ahead, because those break it as shown.
- Controller.ChargingController.Settle: that the restored intent is handed to the store is visible in `Persist` only, not in what `Settle` promises.
- Duties.IgnoredSetpointsLatch: speaks of sixty seconds, the longest window; a shorter one, after a shorter reported validity, is in `LatchMismatch` and `PersistentExactly`.
- Duties.SupersededByCommand: leaves out an apply with nothing to put on the wire; with a Stop in force it is dropped if it sees the charger drawing while the intent, though stopped, does not ask for zero.
