# A verified model of the TotalMix control bridge

The bridge turns web, MQTT and MIDI triggers into OSC messages for RME TotalMix. This project models the parts of it
that hold state or do arithmetic, one module per component, and proves what they promise.

- **Firing macros.** `FireProtocol` is the guard, registration and clean-up of `run_macro`, as a class and as a
  transition system in which threads interleave at the locks. `MacroSteps` is the step loop a macro runs under the
  device lock, `TargetResolver` the resolution of one step's target, `ClassicDevice` the mixer with its hidden bank,
  row and submix, `ChannelNames` the comparison of names across stereo links. `PhysicalTable` is the measured channel
  table and `Sweep` the measurement.
- **The native MIDI agent.** `MidiStream` parses the byte stream, `Bindings` prints and parses the trigger feed,
  `TriggerMatch` matches messages against it, `KnobBuffer` coalesces knob values across table refreshes,
  `ClockEstimate` reads the tempo, `WireEncoders` builds paths and bodies.
- **Knobs.** `KnobStream` throttles broadcasts, `KnobGroup` moves a group along the fader law.
- **Arithmetic.** `FaderLaw` is the fader curve and its inverse, `DuckEngine` the sidechain ducker.
- **Fan-out.** `WsQueues` is the per-client WebSocket queueing.

Code that updates objects, arrays or dictionaries is modelled by classes and loops. Each such method is proved to do
what a specification function of the old state says, and the properties are proved of runs of that function. What the
outside world answers (the device, the network, the clock, other threads) is a parameter of the step it answers, so
the properties hold for every answer.

## Where the code does less than it says

Each of these is a lemma, next to the exact or a sufficient condition under which the promise does hold.

- A `fire_mode` other than the three documented ones falls through the guard and starts a second instance
  (`FireProtocol.ExclusiveExactlyForKnownModes`).
- In both modes that hold a call, an older one, such as a re-fire, can overwrite a newer one: exactly when it is on its
  way to the guard while the newer one is held (`FireProtocol.NewestWinsExactlyWithoutASlot`,
  `FireProtocol.OverwrittenExactlyWhenOvertaken`).
- With a debounce or in ignore mode a last call can go unserved (`FireProtocol.ServedExactlyWhenPatient`), and one that
  got past the guard is refused, and not fired again, when another macro is registered at the time and it neither forces
  its switch nor is on target (`FireProtocol.RunExactlyWhenPatientAndUnhindered`).
- An exception inside the aim window leaves the bank scrolled: the dirty flag is set only after the resolver returns
  (`MacroSteps.BankIsRestored`).
- A channel-detail parameter stored with space around its name, as in `"eq_gain_1 "`, is channel detail to the resolver,
  which strips the name, and not to the step loop, which does not: the step is aimed and written, and the macro ends on
  the scrolled bank without any exception (`MacroSteps.PaddedNameStrandsTheBank`).  A button's padded name is written as
  a plain value and so flips the button blindly (`MacroSteps.PaddedButtonIsSetByChance`).
- A modulated page-2 button that cannot be read leaves the bank scrolled for the steps that follow in the same macro,
  against the comment at `tmosc/core/macros.py:432-434` (`MacroSteps.UnreadableButtonScrollsTheNextStep`).
- If the global transport goes away between the start of the loop and a step on another row, the row is not restored
  (`MacroSteps.RowLostWhenGlobalGoesAway`).
- A sweep whose file cannot be written reports an error although the measurement is already merged into the table
  (`Sweep.RunSweep`).
- A 14-bit-CC table that is full takes slot 0 over (`TriggerMatch.FaithfulExactlyWithRoom`).
- `fader_lin` steps down at -6 dB (`FaderLaw.DipsExactlyAtTheSeam`).
- A knob timer that fires after the wall clock was set back broadcasts inside the throttle window
  (`KnobStream.BroadcastsAreSpaced`).
- A ducked write at or below -64.9 dB puts the send on silence.  Its echo is taken for an external move, and the send is
  then never released (`DuckEngine.EchoRecognisedUnlessSilent`, `DuckEngine.DeepDuckForgetsItsBase`,
  `DuckEngine.DeepSettingsLoseTheBase`).  Without an echo, on a base within 0.1 dB of that level, the reduction can be too
  small for the restore to undo, or for the release to be written at all, and the send stays silent
  (`DuckEngine.RestoreSkipsASilentSend`, `DuckEngine.ReleaseSkipsASilentSend`; when exactly a send comes back is
  `DuckEngine.RestoreReturnsToTheBase` and `DuckEngine.SilenceFreesTheSend`).
- The ducker keeps a write on record that was lost because its target did not resolve or sending raised.  A lost release is
  never repeated, the restore finds nothing to do, and the send stays down (`DuckEngine.LostWritesAreNotRepeated`,
  `DuckEngine.LostReleaseStaysDown`).
- An echo of an older ducked write pulls the base down (`DuckEngine.StaleEchoRatchets`).
- A table that names a macro twice, which a feed with NUL bytes can build, lets the agent post a name's knob values out of
  order (`KnobBuffer.OrderExactlyForDistinctNames`).

## Model

| member | source | states |
|---|---|---|
| FireProtocol.FireGuard.Admit | tmosc/core/macros.py:157-185 | guard and registration in one critical section: the whole new guard state and the verdict for each mode, debounce included |
| FireProtocol.FireGuard.Retire | tmosc/core/macros.py:551-563 | clean-up: unregister, lower the suppress count with its clip, pop the held trigger for a re-fire |
| FireProtocol.TriggersAreConserved | tmosc/core/macros.py:112-186 | in every reachable interleaving each arrived trigger is in exactly one place (begun, dropped by ignore or debounce, superseded, rejected, held, in flight), begins at most once, and the suppress count equals the live instances, so its clip never acts |
| FireProtocol.OneInstanceHoldsTheDevice | tmosc/core/macros.py:188-192 | no two instances are past the device lock together, from the decision whether they may run to the release |
| FireProtocol.SoundRun | tmosc/core/macros.py:157-185 | the conservation, begin-once and counting invariants survive every run from every sound state |
| FireProtocol.ExclusiveRun | tmosc/core/macros.py:157-185 | running names, cancel events and live instances agree, one instance per name, and a slot is held only for a running name, in every run whose configuration edits keep a recognised mode |
| FireProtocol.UnrecognisedModeOverlaps | tmosc/core/macros.py:154-174 | an unrecognised fire mode lets a second instance of the same macro start |
| FireProtocol.ExclusiveExactlyForKnownModes | tmosc/core/macros.py:154-185 | one instance per name over all runs if and only if every macro's fire mode is one of the three |
| FireProtocol.RestartSignalsTheRunningInstance | tmosc/core/macros.py:166-172 | a newly set cancel event belongs to the running instance of the restarted macro, and a run that begins has an unset one |
| FireProtocol.GuardSignals | tmosc/core/macros.py:166-172 | a restart call that meets the guard signals the live instance of its name, whether or not a call is held already, and no other call signals anything |
| FireProtocol.CancelledExactlyWhenRestarted | tmosc/core/macros.py:166-172 | over all runs the cancel event of a live instance is set if and only if a restart call of its own macro met the guard while it was live |
| FireProtocol.LastTriggerIsServed | tmosc/core/macros.py:157-180 | without ignore or debounce, a last call that has not got past the guard is held or on its way in, so in a quiet system every last call has |
| FireProtocol.IgnoreLosesACall | tmosc/core/macros.py:159-161 | with ignore, some run goes quiet with the last call unserved |
| FireProtocol.DebounceLosesACall | tmosc/core/macros.py:174-180 | with a debounce, some run goes quiet with the last call unserved |
| FireProtocol.ServedExactlyWhenPatient | tmosc/core/macros.py:157-180 | the last call of a macro always gets past the guard, over all runs, if and only if the macro neither ignores nor debounces |
| FireProtocol.DecidedRun | tmosc/core/macros.py:226-241 | in every reachable state each call that began is waiting for its decision, has run or was refused |
| FireProtocol.NeighbourRefusesACall | tmosc/core/macros.py:226-241 | a run in which an unforced macro, beside another registered one, is refused for good |
| FireProtocol.LastTriggerRuns | tmosc/core/macros.py:226-241 | of a patient macro that forces its switch or is the only one, the last call has run whenever the system is quiet |
| FireProtocol.RunExactlyWhenPatientAndUnhindered | tmosc/core/macros.py:157-241 | the last call has run in every quiet system, over all runs, if and only if the macro neither ignores nor debounces and forces its switch or is the only macro |
| FireProtocol.DebouncedExactlyInItsWindow | tmosc/core/macros.py:174-185 | over all runs a call of a macro with no live instance is dropped if and only if it comes less than the configured milliseconds after the macro's last stamp, and begins otherwise |
| FireProtocol.RunsExactlyWhenAllowed | tmosc/core/macros.py:226-241 | an instance that gets the device runs if and only if the device is on target, its switch is forced or no instance of another macro is live, and is refused otherwise |
| FireProtocol.NewestCallCanBeOverwritten | tmosc/core/macros.py:557-563 | in either holding mode, with any debounce, a run whose next step is a returning re-fire that overwrites, and so loses, a call that arrived after it |
| FireProtocol.NewestWinsExactlyWithoutASlot | tmosc/core/macros.py:162-172 | no older call ever takes the slot from a newer one, over all runs, if and only if the mode is neither queue nor restart |
| FireProtocol.OverwrittenExactlyWhenOvertaken | tmosc/core/macros.py:162-172 | in every reachable state of a mode that holds calls, a thread's next pass through the guard overwrites a newer call if and only if the thread carries an older call of the same macro while the newer one is held, and no other step ever does |
| ClassicDevice.Device.Send | tmosc/core/transport.py:208-224 | a message joins the trace and moves bank, row or submix as its address says |
| ClassicDevice.AimAfterBoth | tmosc/core/transport.py:208-224 | the aim after a trace composes: state persists from one send to the next |
| PhysicalTable.Table.MergeObservation | tmosc/physical_table.py:70-85 | an observation adds a stripped real name in range to its offset, sorted, unless known in any case; changed is reported exactly when the row changed, other rows stay |
| PhysicalTable.ResolveStart | tmosc/physical_table.py:45-57 | the lowest offset that lists the name exactly, else the lowest that lists it in any case, else none |
| PhysicalTable.StartExists | tmosc/physical_table.py:45-57 | every name has an answer in every row |
| PhysicalTable.StartIsUnique | tmosc/physical_table.py:45-57 | and only one |
| PhysicalTable.StartIsLowest | tmosc/physical_table.py:45-57 | a start is the lowest offset whose list spells the name so, or, where none does, the lowest whose list holds it in any case |
| PhysicalTable.SortedIsAPermutation | tmosc/physical_table.py:83-84 | sorting an alias list keeps every alias with its multiplicity and puts it in order |
| PhysicalTable.MergeAccumulates | tmosc/physical_table.py:15-18 | aliases are never removed by observation, and a real name in range is known afterwards |
| PhysicalTable.MergeIsIdempotent | tmosc/physical_table.py:81-82 | seeing a name again, in any case, changes nothing |
| PhysicalTable.MergeChangesExactly | tmosc/physical_table.py:70-85 | an observation changes the table if and only if its name is neither blank nor `n.a.`, its offset is in range and no alias there equals it but for case and space |
| Sweep.ReadTrackname | tmosc/core/transport.py:571-592 | nudges the mirror of the row just commanded, unless the listener has stopped, and reads what the device shows at its present bank |
| Sweep.SweepRow | tmosc/core/channel_map.py:168-198 | probes offsets 0 to n+3, giving up at the first silence; succeeds exactly when all answered and nothing new shows past the end |
| Sweep.CheckBoundary | tmosc/core/channel_map.py:189-197 | the boundary check passes exactly when every offset past the end shows nothing or the last channel |
| Sweep.RunSweep | tmosc/core/channel_map.py:136-250 | done if and only if a listener runs, every row is measurable and the file is written; an aborted measurement leaves all rows as they were, a failed write leaves them merged; the exact sends |
| Sweep.MeasuredExactly | tmosc/core/channel_map.py:168-198 | rows are measurable if and only if each answers from offset 0 to the fourth past its end and shows nothing there but blanks or its last name |
| Sweep.MergeRows | tmosc/core/channel_map.py:212-222 | the rows measured, and only they, take the observation over, into whatever table is in place by then |
| Sweep.SweepLeavesTheDeviceHome | tmosc/core/channel_map.py:199-201 | wherever the sweep gives up it never selects a submix and ends on bank 0 and the input row |
| Sweep.SweepInvertsTheDevice | tmosc/core/channel_map.py:212-220 | after a reset sweep a lookup gives, for every name, the lowest offset that displayed it, and none if none did |
| Sweep.LookupInvertsTheDisplay | tmosc/core/channel_map.py:205-222 | end to end: in the row a finished reset sweep of any display leaves, every name starts at the lowest offset at which the device displayed it, and one never displayed at none |
| Sweep.SweepKeepsAliases | tmosc/core/channel_map.py:213-220 | without reset no earlier alias is lost |
| ChannelNames.PairReads | tmosc/core/transport.py:109-116 | prefix and both numbers of a pair name are read off it, however many digits they have |
| ChannelNames.PairCoversItsHalves | tmosc/core/transport.py:99-117 | a pair's name covers both its halves and each half the pair, but for case and surrounding space |
| ChannelNames.CoversExactly | tmosc/core/transport.py:99-117 | a name covers another if and only if they are equal but for case and space, or one ends in two numbers with a slash between and the other is its head with one of them; no other name is covered |
| TargetResolver.ConfirmAim | tmosc/core/transport.py:546-569 | the comparisons with the name shown, stripped; what they amount to is `TargetResolver.DetailResolvesExactly` |
| TargetResolver.ResolveTarget | tmosc/core/transport.py:119-392 | the status and the exact sends of every outcome |
| TargetResolver.ResolveDetail | tmosc/core/transport.py:150-186 | the channel-detail branch with its confirmation and the restores of a refused aim |
| TargetResolver.ResolvePage | tmosc/core/transport.py:187-392 | the page-1 branch: bank 0, row, submix, and the provoked dump when no match is visible |
| TargetResolver.ResolutionAims | tmosc/core/transport.py:171-224 | from any aim, every outcome leaves the device aimed at the target's own channel, row and submix, home after a refused page-2 aim, or untouched |
| TargetResolver.ResolvedMeansConfirmed | tmosc/core/transport.py:151-186 | a channel-detail address is handed out only when page 2, with the bank on the start measured for the wanted name, shows that name, its pair or half or an alias of that start; a level address only when the submix label does the same for the submix |
| TargetResolver.DetailResolvesExactly | tmosc/core/transport.py:150-186 | in names and alias lists: with the bank on the wanted name's start, the address is handed out if and only if page 2 shows that name, its pair or half, or one listed with it there; on any other name, or none, the step is refused with bank and row restored |
| TargetResolver.LevelResolvesExactly | tmosc/core/transport.py:225-392 | the same of a level and its submix label, and which address the strip found gives |
| TargetResolver.UnknownNamesAreRefused | tmosc/core/transport.py:158-204 | a name without a measured start is refused before anything is sent |
| TargetResolver.ProvokedExactlyWhenUnseen | tmosc/core/transport.py:325-340 | a resolution steps to another row and back if and only if no matching strip was visible |
| TargetResolver.ResolverSubmixesAreMeasured | tmosc/core/transport.py:192-221 | every submix the resolver selects is a measured output of the table of that moment |
| TargetResolver.ReadButton | tmosc/core/transport.py:475-510 | the refresh sent and the state read, unknown without a listener or a readable reply |
| TargetResolver.SetButton | tmosc/core/transport.py:512-528 | refresh, then a press exactly when the known state differs |
| TargetResolver.SetButtonSets | tmosc/core/transport.py:39-45 | a button that toggles when pressed ends as desired, and is left alone when its state is unknown |
| TargetResolver.EdgeToggle.Send | tmosc/core/macros.py:31-38 | other addresses pass through, the button's gets a press exactly on a change of side |
| TargetResolver.ButtonFollowsTheStream | tmosc/core/macros.py:20-38 | after every value of an absolute stream the toggling device stands as that value says |
| TargetResolver.PressesAreEdges | tmosc/core/macros.py:20-38 | the presses are as many as the stream's changes of side |
| MacroSteps.RunStep | tmosc/core/macros.py:334-506 | the exact sends of one step of any kind, padded parameter names, null operations and exceptions in a button read included, how it ends, and the dirty flag after it |
| MacroSteps.WriteTarget | tmosc/core/macros.py:435-506 | modulated or static writes of a resolved step and the bank's way home, which is skipped for a padded name, a null operation and a modulated button whose read fails or raises |
| MacroSteps.RunSteps | tmosc/core/macros.py:326-516 | the whole loop with its early exits and its restores |
| MacroSteps.WritesAreAimed | tmosc/core/macros.py:410-506 | each single write of a resolved step goes out under the aim the resolver set up |
| MacroSteps.StaticStepWritesItsValue | tmosc/core/macros.py:483-506 | a static step on anything but a toggling button sends its number, or the trigger's parameter, once and unchanged to the resolved address, and known channel detail the bank's way home behind it |
| MacroSteps.ModulatedStepWritesItsValues | tmosc/core/macros.py:448-482 | a modulating one sends the operation's values in turn |
| MacroSteps.StaticButtonEndsAsStored | tmosc/core/macros.py:489-495 | a button that can be read ends on for a value of 0.5 and up and off below, whichever way it stood |
| MacroSteps.ModulatedButtonEndsAsEmitted | tmosc/core/macros.py:456-475 | under modulation it ends as the operation's last value says, with the side at 0.5 |
| MacroSteps.StoredAddressIsTheFallback | tmosc/core/macros.py:410-415 | without feedback the stored address is written in place of the live one |
| MacroSteps.StepAims | tmosc/core/macros.py:334-506 | the bank and the row after any step on any outcome, from what the resolver and from what the loop makes of the parameter |
| MacroSteps.BankBetweenSteps | tmosc/core/macros.py:432-437 | between any two steps the bank is at 0 if and only if the last step that aimed the device did not leave it scrolled to another offset |
| MacroSteps.DirtyExactly | tmosc/core/macros.py:435-440 | the dirty flag is up if and only if the last step that raised it did not finish |
| MacroSteps.BankIsRestored | tmosc/core/macros.py:321-326 | a run from bank 0 ends on bank 0 if and only if the last aiming step did not leave page 2 at another offset (by an exception, a padded name or an unreadable button) or the dirty flag is still up |
| MacroSteps.RowIsRestoredExactly | tmosc/core/macros.py:330-332 | the input row is back at the end if and only if the row flag was up at the start or the last aiming step left the input row |
| MacroSteps.RowIsRestored | tmosc/core/macros.py:511-516 | a run from the input row ends there on every outcome, unless the global transport went away under it |
| MacroSteps.MacroEndsHome | tmosc/core/macros.py:321-326 | home to home: for every step list and every combination of outcomes, bank and row are both back if and only if the bank condition and the row condition hold |
| MacroSteps.OrderlyMacroEndsHome | tmosc/core/macros.py:435-516 | a step list comes home in all surroundings that foresee its row and raise only where a step writes (refusals, aborts, null operations and unreadable buttons included) if and only if no padded channel detail, on a row that can be aimed, stands behind steps that can all be passed |
| MacroSteps.PaddedNameStrandsTheBank | tmosc/core/macros.py:435-440 | at a concrete one-step macro whose detail parameter has a padded name the run ends on the channel's offset without an exception |
| MacroSteps.PaddedButtonIsSetByChance | tmosc/core/macros.py:442-499 | a toggling button stored with a padded name ends as the step wants if and only if it stood the right way by chance: 1 flips it, anything else leaves it |
| MacroSteps.RowLostWhenGlobalGoesAway | tmosc/core/macros.py:330-332 | a step on another row that runs classic after a global start leaves the row selected |
| MacroSteps.StepsStartOnBankZero | tmosc/core/macros.py:432-437 | a step that is reached starts on bank 0 if and only if the last aiming step before it was no channel detail at another offset with a padded name or an unreadable button |
| MacroSteps.UnreadableButtonScrollsTheNextStep | tmosc/core/macros.py:459-465 | after such a step the next one is reached with the bank on that offset, which is not 0 |
| MacroSteps.GuardedExactly | tmosc/core/macros.py:371-415 | a step selects measured outputs only, for every parameter and in all surroundings, if and only if it stores no submix selection, is a knob step, is a raw selection of a single value, or has a target that never writes the stored selection |
| MacroSteps.SubmixesStayMeasured | tmosc/core/macros.py:371-403 | over whole runs of such steps every submix selection carries a measured output of the table of its moment, and the restores add none |
| MacroSteps.RawSelectionDecidesTheRun | tmosc/core/macros.py:377-403 | a raw selection reached with the number of a measured output sends exactly that and the run goes on; with any other value neither it nor any later step sends anything |
| MacroSteps.RefusalSilencesTheRest | tmosc/core/macros.py:398-403 | after a refusal nothing but the restores is sent |
| MacroSteps.ModulatedSelectionIsUnguarded | tmosc/core/macros.py:448-476 | every raw selection under modulation can send a number that is no measured output |
| MacroSteps.StoredSelectionIsUnguarded | tmosc/core/macros.py:414-415 | so can every target step on a level or mute with a stored selection and a number to write |
| MidiStream.Parser.PushByte | agent/core/tmosc_midi.c:22-94 | the new parser state and the message, if any, of one byte; that program change and channel aftertouch take one data byte and the other channel messages two is part of `MidiStream.ParserDecodes` and `MidiStream.RoundTrip` |
| MidiStream.AlsaRead | agent/linux/main.c:33-43 | a failed read changes nothing and is passed on; any other pushes a prefix of the bytes, all of them unless the batch fills up |
| MidiStream.ParserDecodes | agent/core/tmosc_midi.c:22-94 | for every byte stream the parser emits exactly the messages of a decoder that looks at the stream as a whole |
| MidiStream.ChunkingIsInvisible | agent/linux/main.c:33-43 | however the stream is cut into reads the messages are the same |
| MidiStream.RealTimeIsTransparent | agent/core/tmosc_midi.c:26-33 | real-time bytes come out in order and change nothing else |
| MidiStream.RoundTrip | agent/core/tmosc_midi.c:22-94 | messages of one data byte (status 0xC0 to 0xDF) and of two (the other channel statuses), encoded with any legal running status, sysex and system common between them and real-time bytes anywhere, come back exactly, each real-time byte right behind the messages completed before it |
| Bindings.Store.Parse | agent/core/tmosc_bindings.c:54-126 | the table after a feed and whether it overflowed, for every feed on which C defines the parser |
| Bindings.Store.MacroSlot | agent/core/tmosc_bindings.c:35-52 | the macro of a stored name, made when there is room, with its block at the tail and its name ending at its first NUL |
| Bindings.Store.ParseInt | agent/core/tmosc_bindings.c:6-13 | a sign, leading digits, 0 when there are none |
| Bindings.Store.Split | agent/core/tmosc_bindings.c:77-87 | the tab fields of a line, at most seven |
| Bindings.Store.Append | agent/core/tmosc_bindings.c:100-121 | one trigger behind its macro's block, refused when anything is full or the block is not at the tail |
| Bindings.Print | tmosc/api/routes/midi.py:52-75 | the feed: a line per trigger, grouped by macro |
| Bindings.AnyFeedIsWellBuilt | agent/core/tmosc_bindings.c:54-126 | for any feed the blocks are consecutive and tile the used triggers, capacities hold, and a block is empty only when the triggers are full; without NUL bytes names differ |
| Bindings.NulFreeIsDefined | agent/core/tmosc_bindings.c:15-20 | without NUL bytes no field comparison reads past a type name's end |
| Bindings.BlocksFit | agent/core/tmosc_bindings.c:103-114 | in a tiling only the last nonempty block ends at the tail, so the contiguity check admits only it |
| Bindings.FeedRoundTrip | tmosc/api/routes/midi.py:52-75 | parsing the printed feed overflows if and only if the macros with triggers do not fit, and otherwise rebuilds exactly them, in order |
| Bindings.IntOfPrinted | agent/core/tmosc_bindings.c:6-13 | a printed integer reads back as itself |
| Bindings.NoIntermediateOverflow | agent/core/tmosc_bindings.c:10 | reading a number passes through no value larger than the number |
| Bindings.FeedLineText | tmosc/api/routes/midi.py:52-75 | a line of the feed holds name, flag, type, number, note, channel and flag, with -1 for what does not apply |
| Bindings.TypeWords | agent/core/tmosc_bindings.c:22-32 | the agent knows each of the seven type words for its type and no other word |
| Bindings.NumbersAreReadOffTheFront | agent/core/tmosc_bindings.c:6-13 | what follows a number in its field makes no difference, and a field without one reads 0 |
| Bindings.MalformedLinesAreSkipped | agent/core/tmosc_bindings.c:77-93 | a line of fewer than seven fields or of an unknown type leaves the table alone |
| Bindings.SurplusIsIgnored | agent/core/tmosc_bindings.c:71-88 | fields behind the seventh and a trailing carriage return make no difference |
| Bindings.TakenExactlyInPlace | agent/core/tmosc_bindings.c:100-121 | a trigger is taken if and only if a slot is free and its macro's block is at the tail, or the macro is new and there is room for it; otherwise the overflow is on record |
| TriggerMatch.EmitFor | agent/core/tmosc_match.c:52-80 | the first `cap` of the specified actions |
| TriggerMatch.MatchState.MsbFor | agent/core/tmosc_match.c:17-30 | the pair's MSB if and only if some 14-bit trigger claims the controller |
| TriggerMatch.MatchState.TakeSlot | agent/core/tmosc_match.c:32-47 | the key's slot, else the first free one, else slot 0 |
| TriggerMatch.MatchState.Match | agent/core/tmosc_match.c:82-123 | the table after a message and its first `cap` actions |
| TriggerMatch.FaithfulExactlyWithRoom | agent/core/tmosc_match.c:32-47 | a message does to the table what it does to an unbounded map if and only if its key is held or fewer than 32 pairs are |
| TriggerMatch.FullTableForgets | agent/core/tmosc_match.c:40 | a full table forgets the pair of slot 0 |
| TriggerMatch.TableFollowsMap | agent/core/tmosc_match.c:32-47 | over runs with changing mappings that claim at most 32 pairs the table holds exactly what the map does, keys unique |
| TriggerMatch.MatchesFollowSpecification | web/static/midi.js:196-211 | every match of such a run gives the actions of the unbounded specification |
| TriggerMatch.ActionsAreFirstAnswers | web/static/midi.js:86-106 | one action per macro at most, in order, each for its first matching trigger |
| TriggerMatch.NoAnswerIsSkipped | web/static/midi.js:86-106 | no macro with a matching trigger is passed over |
| TriggerMatch.MeantTriggersAnswer | agent/core/tmosc_match.c:82-123 | from the side of the triggers, on literal statuses: a macro answers with its first trigger of the message's kind, channel and key, and with the value the message carries to it, the bytes of a bend and the halves of a pair in their order |
| TriggerMatch.OnlyMeantTriggersAnswer | agent/core/tmosc_match.c:82-123 | no other macro answers |
| TriggerMatch.PairReadsInOrder | agent/core/tmosc_match.c:89-96 | after a coarse half a fine one gives the 14-bit number of the two, whatever came before |
| TriggerMatch.ClaimedNeverReachesPlain | web/static/midi.js:210-211 | a claimed controller reaches only 14-bit triggers |
| TriggerMatch.ValuesAreNormalised | agent/core/tmosc_match.c:95-120 | seven-bit input gives values from 0 to 1 |
| KnobBuffer.Runner.OnKnob | agent/runner.c:357-360 | a knob action overwrites its position's value and marks it |
| KnobBuffer.Runner.LoadBindings | agent/runner.c:103-127 | a fetched table, equal names in it or not, drops exactly the values whose position no longer bears the same name; a failed fetch changes nothing |
| KnobBuffer.Runner.FlushKnobs | agent/runner.c:170-179 | each waiting value is cleared and posted under its position's name |
| KnobBuffer.PostsPairNamesWithTheirValues | agent/runner.c:114-124 | over matches, flushes, failed fetches and refreshes to tables of distinct names that rename, reorder, add or remove macros, a waiting value is the newest received for the name at its position, and per name the posts are a subsequence of what was received |
| KnobBuffer.KeptValueIsPosted | agent/runner.c:114-124 | a waiting value whose position keeps its name through any number of refreshes and failed fetches is posted, under that name, by the next flush |
| KnobBuffer.OrderExactlyForDistinctNames | agent/runner.c:170-179 | from a loaded table on, every name's posts keep the order of its values over all such runs if and only if the table's names are distinct |
| ClockEstimate.Clock.Tick | agent/core/tmosc_clock.c:10-37 | the window and the tempo after a tick |
| ClockEstimate.WindowHoldsLastTicks | agent/core/tmosc_clock.c:15-20 | the window holds the last min(n, 25) ticks |
| ClockEstimate.IntervalsTelescope | agent/core/tmosc_clock.c:24-26 | the summed intervals are the last tick less the first |
| ClockEstimate.AverageIsCloseToThePeriod | agent/core/tmosc_clock.c:24-26 | ticks within J of a steady beat average within 2J/(count-1) of its period |
| ClockEstimate.ExactTempoIsRead | agent/core/tmosc_clock.c:29-35 | exact ticks at a whole tempo from 20 to 400 read as that tempo from the fourth tick on |
| ClockEstimate.TempoIsTheNearestWhole | agent/core/tmosc_clock.c:22-36 | of any window: a tempo is read if and only if there are four ticks, the clock advanced and the nearest whole tempo is from 20 to 400, which is then read |
| WireEncoders.Put | agent/core/tmosc_proto.c:13-18 | one character, or nothing when it would not leave room for the NUL |
| WireEncoders.PutEscape | agent/core/tmosc_proto.c:26-43 | one character's escape, whole length or failure |
| WireEncoders.PutEncoded | agent/core/tmosc_proto.c:22-45 | a whole encoded string appended, or failure exactly when it does not fit |
| WireEncoders.BuildPath | agent/core/tmosc_proto.c:79-99 | the exact length when path and NUL fit, -1 otherwise, nothing behind the buffer touched |
| WireEncoders.BuildTriggerPath | agent/core/tmosc_proto.c:119-138 | the same text as the shared builder's for the verb trigger |
| WireEncoders.BuildOwnerBody | agent/core/tmosc_proto.c:140-158 | the owner body with absent host and title as given, exact length or -1 |
| WireEncoders.PercentRoundTrip | agent/core/tmosc_proto.c:71-95 | percent-decoding (RFC 3986, section 2.1) returns every name |
| WireEncoders.PercentAlphabet | agent/core/tmosc_proto.c:71-76 | an encoded name holds unreserved characters and percent signs only |
| WireEncoders.PercentExactly | agent/core/tmosc_proto.c:71-76 | exactly the unreserved characters (RFC 3986, section 2.3) stand as they are, every other byte as a percent sign and two upper-case digits |
| WireEncoders.PathNamesTheMacro | agent/core/tmosc_proto.c:79-99 | a path begins with the verb's prefix and its rest decodes to the name |
| WireEncoders.JsonRoundTrip | agent/core/tmosc_proto.c:22-45 | reading a string literal (RFC 8259, section 7) returns the string and stops at its closing quote |
| WireEncoders.EscapedExactly | agent/core/tmosc_proto.c:26-43 | exactly the quote, the backslash and the control characters are escaped |
| WireEncoders.OwnerRoundTrip | agent/core/tmosc_proto.c:140-158 | the body determines id, host, and presence and content of the title |
| WireEncoders.AgentBuffersSuffice | agent/runner.c:144-149 | the agent's 256-byte paths fit every stored name and its 1024-byte owner body fits without a title |
| FaderLaw.FaderDbRises | tmosc/global_units.py:23-32 | the curve is strictly increasing out of the snap, the breakpoint included |
| FaderLaw.BranchesMatch | tmosc/global_units.py:26-40 | position and level pick matching branches |
| FaderLaw.RoundTrip | tmosc/global_units.py:23-44 | position to level and back is exact within a billionth if and only if the level is above the snap (or the position within a millionth of 0) |
| FaderLaw.ReverseTrip | tmosc/global_units.py:23-44 | level to position and back within a ten-millionth from the snap to 6 dB, but for a sliver of 1e-7 dB above the snap |
| FaderLaw.LinRises | tmosc/global_units.py:35-44 | the inverse is monotone toward every level outside the seam |
| FaderLaw.DipsExactlyAtTheSeam | tmosc/global_units.py:40-43 | some lower level gets a higher position if and only if the level lies from -6 dB up to the forward curve's own seam |
| FaderLaw.DipIsTiny | tmosc/global_units.py:40-43 | the step is at most a ten-billionth of travel |
| KnobGroup.WriteMembers | tmosc/core/knobs.py:289-329 | the writes of a group, in order, with the seen-set's effect stated without it |
| KnobGroup.AddressesAreDistinct | tmosc/core/knobs.py:319-322 | no address is written twice, the primary's never |
| KnobGroup.WrittenExactlyOnceEach | tmosc/core/knobs.py:303-322 | an address is written if and only if some member resolves to it and it is not the primary's |
| KnobGroup.NeverOverUnity | tmosc/core/knobs.py:290-295 | no offset drives a member over 0 dB |
| KnobGroup.KeepsItsDistance | tmosc/core/knobs.py:273-275 | a member decodes to the primary's level plus its offset within 1e-7 dB, capped at 0 dB, silent at or below the snap |
| KnobGroup.EntryKeepsItsDistance | tmosc/core/knobs.py:303-325 | on the group itself: the entry an address is written for is written at the primary's level plus the offset stored in it (0 dB when absent or no number) within 1e-7 dB, capped at 0 dB, silent at or below the snap |
| KnobGroup.BalanceSurvivesMoves | tmosc/core/knobs.py:273-275 | the distance between two members in range survives every move of the primary |
| KnobGroup.BottomMutesAll | tmosc/core/knobs.py:323-325 | a primary at or below 0.0005 sends 0 to every resolved member |
| KnobStream.Knobs.KnobSet | tmosc/core/knobs.py:331-395 | the knob's whole new record, broadcast or timer included, other knobs untouched, rejected input ignored |
| KnobStream.Knobs.Arm | tmosc/core/knobs.py:415-444 | a timer is armed once, for the end of the throttle window |
| KnobStream.Knobs.Flush | tmosc/core/knobs.py:421-437 | the timer's flush broadcasts the state of that moment |
| KnobStream.WritesGoOutAtTheLeadingEdge | tmosc/core/knobs.py:369-395 | over all runs a write 0.1 s or more after the last frame adds exactly one frame, stamped with its time and holding the newest value and status, and leaves no timer; a write inside the window adds none and leaves one, due at the window's end or in 10 ms if that is later |
| KnobStream.TimersSendTheNewest | tmosc/core/knobs.py:421-437 | a timer adds exactly one frame with the newest value and status and leaves none pending |
| KnobStream.NewestIsShownOrPending | tmosc/core/knobs.py:387-394 | in every reachable state a timer is pending or the last broadcast carries the newest value and status |
| KnobStream.NeverDueEarly | tmosc/core/knobs.py:418-419 | an armed timer is never due before the last broadcast plus 0.1 s, whatever the clock does |
| KnobStream.PromptTimersKeepTheClock | tmosc/core/knobs.py:418-424 | as long as every timer reads the clock no earlier than it is due, consecutive broadcasts of a knob are at least 0.1 s apart |
| KnobStream.BroadcastsAreSpaced | tmosc/core/knobs.py:369-374 | over all runs they are if and only if no timer reads a clock that puts it inside the window still; a write never crowds one, however the clock is set |
| KnobStream.ShownWithinTheInterval | tmosc/core/knobs.py:387-394 | with a forward clock, a write not yet broadcast has a timer due within 0.1 s of it |
| DuckEngine.Duck.Tick | tmosc/duck_engine.py:58-112 | the whole runtime record and the write of one control tick |
| DuckEngine.Duck.Seed | tmosc/duck_engine.py:129-140 | a knob move becomes base and last write |
| DuckEngine.Duck.Restore | tmosc/duck_engine.py:162-175 | what a restore sends: nothing without reduction, step, global protocol or resolved target |
| DuckEngine.ReductionIsBounded | tmosc/duck_engine.py:67-79 | the reduction stays from 0 to 40 dB over every run, disturbed or not, and a reduction on record always has a base to restore |
| DuckEngine.BaseMovesOnlyBySeeds | tmosc/duck_engine.py:81-96 | over any run of ticks with repeated or echoed reports and seeds above the floor the base is the last seed, and the last write is the base less the reduction on record |
| DuckEngine.BaseFromTheFirstReport | tmosc/duck_engine.py:92-106 | from a fresh macro's first report on, the base is that report until the knob moves |
| DuckEngine.WritesStayBelowTheBase | tmosc/duck_engine.py:107-112 | every write of such a run lies from max(-65, base-40) to the base |
| DuckEngine.NewsMovesTheBase | tmosc/duck_engine.py:92-96 | a tick keeps the base if and only if the report is no news or equals it |
| DuckEngine.ReportsBeyondReachAreNews | tmosc/duck_engine.py:92-96 | a report not seen last becomes the base if and only if it lies more than 0.75 dB from the last write, on either side |
| DuckEngine.WritesTrackTheReduction | tmosc/duck_engine.py:107-112 | after every tick of an undisturbed run the last write on record is within 0.05 dB of the reduced base |
| DuckEngine.ReductionFollowsTheKey | tmosc/duck_engine.py:67-79 | every tick leaves the part 1 - c of the way to the goal, the depth from 0 to 40 dB while the key is over the threshold and else 0, with c the attack upwards and the release downwards, and cuts the last 0.005 dB |
| DuckEngine.LoudRunApproachesTheDepth | tmosc/duck_engine.py:67-79 | over a run with the key over the threshold what is missing to the depth shrinks by the attack with every tick |
| DuckEngine.EchoRecognisedUnlessSilent | tmosc/duck_engine.py:92-96 | through the fader's position and back, the echo of the last write is recognised if and only if it does not read as silence, which it does at or below -64.9 dB and not from 1e-7 dB above |
| DuckEngine.EchoesKeepTheBase | tmosc/duck_engine.py:86-96 | over whole runs with nothing but echoes, the base is the last seed as long as every level the knob is set to is audible and clear of silence by the configured depth, or the depth is too small (0.05 dB) to be written |
| DuckEngine.DeepSettingsLoseTheBase | tmosc/duck_engine.py:92-103 | from a send at rest on any level at or below the snap, and wherever a depth over 0.05 dB reaches past the snap, a run of at most two ticks that hear nothing but echoes loses the base |
| DuckEngine.DeepDuckForgetsItsBase | tmosc/duck_engine.py:100-103 | an echo that reads as silence becomes the base, and neither tick nor restore brings the send back |
| DuckEngine.StaleEchoRatchets | tmosc/duck_engine.py:95-96 | an echo of an older write more than 0.75 dB down lowers the base to it |
| DuckEngine.SilenceReleases | tmosc/duck_engine.py:74-79 | silence takes the reduction to exactly 0 within a computable number of ticks and the write on record to within 0.05 dB of the base one tick later |
| DuckEngine.SilenceFreesTheSend | tmosc/duck_engine.py:231-262 | with any writes lost on the way, the send is then within 0.05 dB of its base, but for 1e-7 dB, if and only if the last write that got through was and is heard; it is whenever the last write got through and the base is 0.05 dB clear of silence |
| DuckEngine.DropIsProportional | tmosc/duck_engine.py:76-78 | n silent ticks take off at least n times 0.005 times the release coefficient |
| DuckEngine.RestoreReturnsToTheBase | tmosc/duck_engine.py:162-175 | after any undisturbed run, with any writes lost, a restore leaves the send within 0.1 dB of its base, but for 1e-7 dB, if and only if it sends, or the last write that got through lies that close to the base and is heard |
| DuckEngine.ComesBackByTheRecord | tmosc/duck_engine.py:162-175 | when the last write got through: if and only if it sends where more than 0.1 dB is applied, and otherwise that write is heard; on a base 0.1 dB clear of silence, if and only if it gets through or no more than 0.1 dB is applied |
| DuckEngine.RestoreSkipsASilentSend | tmosc/duck_engine.py:162-166 | a tick that applies 0.08 dB at a base of -64.85 dB puts the send on silence, and the restore leaves it there |
| DuckEngine.ReleaseSkipsASilentSend | tmosc/duck_engine.py:107-112 | a send on silence by a write within 0.05 dB of its base is released without any write |
| DuckEngine.LostWritesAreNotRepeated | tmosc/duck_engine.py:107-112 | once the record says that the send rests on its base, no silence and no restore sends anything, wherever the send stands |
| DuckEngine.LostReleaseStaysDown | tmosc/duck_engine.py:254-262 | a release from 10 dB of reduction whose write is lost leaves the send 10 dB down for good |
| WsQueues.Hub.Attach | tmosc/bridge.py:109-114 | a fresh empty queue for the connection |
| WsQueues.Hub.Detach | tmosc/bridge.py:128-131 | the connection leaves registry and list, whether or not it was there |
| WsQueues.Hub.Enqueue | tmosc/bridge.py:134-140 | the newest 64 of queue and frame |
| WsQueues.Hub.EnqueueAll | tmosc/bridge.py:143-146 | every queue takes the frame, none else changes |
| WsQueues.RunsAreWellFormed | tmosc/bridge.py:98-131 | list and registry agree, without duplicates, over every run |
| WsQueues.DetachIsIdempotent | tmosc/bridge.py:128-131 | detaching twice is detaching once |
| WsQueues.FanOut | tmosc/bridge.py:99-106 | in every interleaving a client's queue is exactly the most recent of its broadcasts, at most 64; what went out is an order-preserving subsequence of the rest; delivered, in transit, queued and dropped add up to the broadcasts |
| WsQueues.NothingIsLostUnlessDropped | tmosc/bridge.py:134-140 | a client has every frame in order if and only if it never met a full queue |
| WsQueues.OthersMakeNoDifference | tmosc/bridge.py:99-104 | take every other client's events out of a run of the hub: the rest is a run of the hub, in which the same frames go out to the client and its queue and frame in transit end the same |

## Left out

- Sockets, HTTP, discovery, MQTT transport, the web application, logging and file formats: foreign calls.
- Workspace and snapshot switching before the step loop (`tmosc/core/macros.py:193-311`): its sends move no bank, row or
  submix the loop relies on.  The refusal beside another macro is modelled; whether a macro is on target already is a
  free choice of the model's environment.
- Steps on the global transport (`tmosc/core/macros.py:565-606`): absolute addresses, no state to restore.
- The search for a strip in the listener's state (`tmosc/core/transport.py:263-305`), with the settling of a dump and the
  freshness of its stamps, heuristics that carry no claim: which strip is found, if any, is a parameter.
- The alias a confirmed aim teaches the table (`tmosc/core/transport.py:555`): the table of each step is a parameter, which
  allows for it; `PhysicalTable.MergeAccumulates` says what it does.
- A missing OSC client, under which every trigger is rejected before the guard.
- Exceptions raised by a send itself; an exception is modelled where the resolver, a button read or a step elsewhere waits,
  after its sends, and where a null operation is looked into.
- Step values that are no finite numbers, steps that are no records, and operations that are neither records nor null.
- The progress duration computed before the loop (`tmosc/core/macros.py:50-70`): a macro whose first operation is null, or
  holds a tempo it cannot be computed from, raises there and takes no step at all.
- `_off_at_min`, auto-enable, pins, read-back broadcasts and the device watcher of the knobs.
- KnobStream.ShownWithinTheInterval: says when the timer is due; that it fires then is up to the system.
- Two threads inside one `knob_set`, or a flush racing its own cancellation: both steps are atomic in the model.
- Unicode: names fold and strip as ASCII, characters in the encoders are bytes.
- The `%.6g` bodies of `agent/core/tmosc_proto.c`: floating-point printing.
- Floating-point rounding and the exponential of the smoothing: reals, and a coefficient from 0 up to but excluding 1.
- The pruning of superseded map entries and the migration from the walked map: easy.
- Bindings.Store.ParseInt: reads unbounded integers; C's behaviour past its integer range is undefined, and
  `Bindings.NoIntermediateOverflow` shows that numbers in range never leave it on the way.
- Bindings.Store.Parse: requires a feed whose type fields do not hold a type's name followed by a NUL byte; comparing such
  a field reads past the name's end, which C leaves undefined.
- DuckEngine.EchoesKeepTheBase: leaves open levels that lie, or that the depth takes, within 1e-7 dB above the snap.
- Fader moves of at most 0.75 dB, which the ducker by design takes for echoes: where the send stands is modelled without
  them, and so without anyone but the engine and the knob.
- FaderLaw.ReverseTrip: says nothing exact about levels within 1e-7 dB above the snap.
- WireEncoders.JsonRoundTrip: the reader accepts code points of one byte only, which are all the writer produces.
