# Caterpillar data path: a verified model

The Caterpillar firmware samples an IMU on one core, hands the samples to a second core
through a ring in shared SRAM, records them in a circular multi-session flash log, previews
them over BLE and dumps whole sessions to a host.  This project models that path, the
settings store, the preview controller and the motor-rail digipot, and proves what they
promise.

How it is organised:

- `LogSpec` is the flash log as transitions on values, one per locked section of the source.
  `ImuLogClass` is the log on arrays it updates in place, each method proved to compute the
  transition of the same name.  `LogRuns` lets commands, pump appends, writer steps and resets
  interleave, a reset also in the middle of a flash update, and carries beside the log the
  append-only store it stands for: a history, and where in it each session began and what it
  recorded.  `LogInvariant` and `LogArchive` prove what every run keeps, and that no session
  disappears without cause; `LogProgress` that the writer gets on; `LogReads` and `LogCrash` what the queries return against that
  store and what crashes cost; `LogTape` follows what the ring physically holds over any
  number of crashes; `LogLimits` shows by runs where reads stop agreeing with the store.
- `Rings` is the theory of u32-counter rings; `CrossCore` the interleaving of the two cores on
  the shared ring and `SharedBlockClass` the two loops that drive it; `Staging` and `Pipeline`
  follow the samples from the sensor into a session.  `EndToEnd` runs that pipeline and the
  flash log side by side, and `SensorToHost` adds the collection by a host: what it unpacks
  are the readings the sensor delivered.
- `Handshake`, `Dump`, `DumpOfLog`, `Settings`, `Stream`, `Preview`, `HostPreview` and
  `Digipot` are one protocol or component each.

State machines are proved step by step (`StepKeeps`, `MoveKeeps`, `NextKeeps`) and lifted to
all runs; every main result below is a statement about all inputs or all runs.

## Where the code does not do what it is documented to do

Each of these is kept as the code has it, with the exact condition under which it is right.

- A session read computes a 32-bit byte address (`src/imu/imu_log.c:564`).  A read is exact
  if and only if that address does not wrap before the last contiguous span:
  `ReadsFetchTheirCellsIffAddressable`.  Up to 2^28 records since the last erase it never does;
  `PastLimitReadsWrongBytes` is a run past that with an intact record that reads back wrong.
- A session whose first record is overwritten is taken from the directory whole at the next
  refresh of a later session, though the ring still holds the rest of it
  (`src/imu/imu_log.c:191-195`): `EntriesGoExactly`, `ReadsAreExactIffKnown`, and
  `OverwrittenSessionVanishes` for a run that loses 42966 readable records.
- `src/imu/imu_log.h` says power loss costs at most about 8 KB of accounting.  Up to 511
  records (8 KB) are forgotten, but the flash may have been written 767 records past the
  rebuilt counter, by the forgotten records and by a torn batch.  The records one ring length
  before those are listed and readable, and read back as what overwrote them.  Exactly which
  bytes do: `LogTape.ReachableReadsExactly` over all runs, `CrashReadsWhatWasWritten` and
  `TornBatchSparesExactly` for one crash; `ForgottenRecordIsExposed` and `TornBatchIsExposed`
  are runs.
- A drain that took its `active` test before a stop may run after it; its records belong to no
  session and a reboot forgets them: `LateDrainIsForgotten`.
- The 1536-slot staging ring is not a power of two.  It loses a record at the wrap of its
  counter exactly under `StagingWrapHazard`: `PushIsExactIff`.
- `src/settings/settings_store.c` says a power cut can only lose the newest change.  Over all
  runs that holds exactly while the last completed write went through with the values it began
  with and a pending write, if any, is an odd number of generations ahead of it or the first
  (`CutIsSafeIffCleanAndOddGap`).  A value changed while a write is pending spoils that write
  (`SpoiledWriteIsLost`), and a cut in the next one loses all settings
  (`SetDuringWriteCanLoseEverything`); so does a returned write error
  (`WriteErrorCanLoseEverything`).
- Subscribing to the stream again keeps the controller's old discard count, so the first
  window can take the drops for another kind than they are: `FirstWindowIsTrueIffTakenRight`,
  `FirstWindowIsTrueIffMemoryClear`, `PhantomDropsBackOff`.
- Subscribing while a packet is being sent breaks the accounting of the new subscription: with
  fewer new samples staged meanwhile than the packet is long, the tail overtakes the head and
  everything picked from then on is discarded; with as many or more, a packet's length of new
  samples is skipped.  `EnableIsSafeIffNotSending` has the exact condition,
  `OvertakenDiscardsAll` the aftermath.
- A preview cap below 1/255 of the sensor rate is not met: `BudgetKeptIffReachable`.
- The dump thread loads the three request words one by one; a request landing in between is
  served mixed: `MixedLoadIsPossible`.  Reassembly of one session survives even that.

## Model

| member | source | states |
|---|---|---|
| `SensorToHost.CollectedSamplesAreTheSensors` | scripts/fleet.py:137-206 | over every run of sensor, cores, log, commands, erases and resets and then every schedule of a collection of a retained, intact session within the address limit, the finished buffer unpacks to the readings the sensor delivered that the session stored, less those the ring no longer holds |
| `EndToEnd.DumpedBytesAreTheSamples` | src/imu/imu_log.c:227-259 | over every such run, reading any session that is retained, untouched by a crash and within the address limit returns byte for byte the samples it stored as the sensor delivered them, in the order they were taken, none twice, less the oldest the flash ring no longer holds |
| `EndToEnd.DecodeEncode` | common/imu_shared.h:60-65 | decoding a 16-byte record gives the seven signed readings and the stamp that were encoded |
| `EndToEnd.EncodeDecode` | scripts/protocol.py:281-284 | every 16-byte record is the encoding of exactly one sample |
| `EndToEnd.UnpackGivesSamples` | scripts/protocol.py:281-284 | unpacking any beginning of the encoded samples gives their beginning back |
| `EndToEnd.DumpTellsTheLosses` | common/imu_shared.h:55-68 | what the host unpacks from such a dump are the samples taken, and the stamps of neighbours differ, mod 65536, by one more than the samples lost between them in either ring |
| `EndToEnd.StepKeeps` | src/imu/imu_pump.c:65-96 | every joint step, resets included, keeps the staging ring equal to the encoded staged samples, the running session to the encoded stored ones and every finished session to the first samples of its chapter |
| `EndToEnd.EveryStepExtends` | src/imu/imu_pump.c:65-96 | every step possible after a joint run extends it: the model's own readiness condition excludes no run |
| `EndToEnd.DropsAreCounted` | src/imu/imu_log.c:450-468 | over every joint run log_dropped is, mod 2^32, the number of samples offered to the running session that are neither staged nor stored |
| `LogInvariant.ReachableInv` | src/imu/imu_log.c:227-431 | after any run of start, append, drain, stop, erase and resets at any point, the flash ring holds the history within one ring length of the high-water mark, directory and counters agree, and the high-water mark is at most 767 records past the persisted end |
| `LogReads.ReachableDirectory` | src/imu/imu_log.c:179-211 | every session sits in slot (number - 1) mod 16 and ends within the counter; ranges are disjoint and ordered like the numbers; while active the counter is start plus count and the current slot keeps its session |
| `LogArchive.NoSessionDisappears` | src/imu/imu_log.c:179-198 | over every run a recorded session is in the directory unless a later one took its slot or ran when its first record was overwritten; the newest always is; every session is its range of the history |
| `LogArchive.EntriesGoExactly` | src/imu/imu_log.c:179-198 | each transition takes exactly the sessions it has to: a start the one sixteen before, a refresh those other than the running one whose first record is overwritten, an erase or another firmware all, everything else none |
| `LogArchive.StartLaw` | src/imu/imu_log.c:350-399 | a start while a session runs changes nothing; any other uses up a number and discards what was staged, and only a successful directory write begins a session, empty and at the counter |
| `LogArchive.OpenMeansRunning` | src/imu/imu_log.c:200-211 | over every run an entry is marked open exactly while its session runs |
| `LogProgress.DrainMovesAllItMay` | src/imu/imu_log.c:227-251 | with anything staged a drain moves the tail and the counter alike, at most 256 and not over the ring wrap, and leaves something staged only after a full batch or at the wrap |
| `LogProgress.SevenDrainsEmptyTheRing` | src/imu/imu_log.c:282-288 | whatever is staged and wherever the write head is, seven drains empty the staging ring |
| `LogReads.ReachableReads` | src/imu/imu_log.c:520-578 | over every run, crashes included, a retained session reads to its full readable length, and a byte read back is the byte recorded there unless it lies a ring length behind the high-water mark |
| `LogTape.ReachableReadsExactly` | src/imu/imu_log.c:520-578 | over every run and any number of crashes, a byte of a known session reads as recorded exactly when it lies within one ring length of the last position ever written or what was written one ring length later is the same byte |
| `LogTape.TapeExists` | src/imu/imu_log.c:227-259 | every run has a record of the last thing written at each position, forgotten records and torn batches included |
| `LogReads.UninterruptedReadsAreExact` | src/imu/imu_log.c:520-578 | without resets, up to 2^28 records, a read of any session retained or listed, and of any number never recorded, is exactly the requested window of what the session recorded, clipped to the newest 43478 records |
| `LogReads.ReadMatchesHistory` | src/imu/imu_log.c:546-577 | the wrapping store refines an append-only one that consults no directory, for every retained or known session no crash has touched and every read whose address fits |
| `LogReads.ReadsAreExactIffKnown` | src/imu/imu_log.c:541-577 | all reads of a session agree with the append-only store exactly when the directory knows it or nothing of it is left |
| `LogReads.ReadByteIsRecorded` | src/imu/imu_log.c:546-577 | the same byte by byte, for every session |
| `LogReads.ReadsFetchTheirCellsIffAddressable` | src/imu/imu_log.c:564-574 | a session read returns the ring cells of the positions asked for, whatever the ring holds, exactly when its 32-bit address does not wrap before its last contiguous span |
| `LogLimits.PastLimitReadsWrongBytes` | src/imu/imu_log.c:564-574 | a run of 2^28 + 1 records from the first boot, without resets, after which an intact record reads back as other bytes |
| `LogLimits.OverwrittenSessionVanishes` | src/imu/imu_log.c:191-195 | a run after which a session with 42966 records left in the ring reads as nothing |
| `LogLimits.ForgottenRecordIsExposed` | src/imu/imu_log.c:318-342 | a run without a torn write after which a closed, fully listed session reads back a record of its successor that the reset made the log forget |
| `LogLimits.TornBatchIsExposed` | src/imu/imu_log.c:245-246 | the same by a batch interrupted by the reset |
| `LogArchive.DumpsAreSelfDescribing` | src/imu/imu_log.h:18-21 | over every run, resets included, a listed session shows the header it was started with |
| `LogReads.ListedCountIsReadable` | src/imu/imu_log.c:484-501 | 16 times a listed record count is the number of bytes a read of that session delivers |
| `LogReads.UnlistedReadsNothing` | src/imu/imu_log.c:541-555 | a session that is not listed reads as nothing at every offset |
| `LogReads.ListedIffReachesIntoRing` | src/imu/imu_log.c:484-487 | a session is listed exactly when the directory knows it and it ends behind what the ring has overwritten, with or without records |
| `LogReads.RunningHeadsTheList` | src/imu/imu_log.c:504-517 | once anything was recorded the running session heads the list, even before its first record |
| `LogReads.ListingIsDetermined` | src/imu/imu_log.c:504-517 | the listing is one definite list: strictly newest first, surviving sessions only, as many as fit |
| `LogInvariant.BatchKeepsRing` | src/imu/imu_log.c:236-246 | a batch clamped at the ring wrap lands in the cells of the next positions and spares everything less than a ring length back |
| `LogInvariant.LateDrainOnlyWrites` | src/imu/imu_log.c:255-272 | a drain after stop or erase never touches the directory |
| `LogInvariant.ResetKeeps` | src/imu/imu_log.c:292-348 | booting from any interrupted flash image, torn batch included, re-establishes the invariant with history and sessions cut to what was persisted |
| `LogCrash.CrashLag` | src/imu/imu_log.c:318-342 | the rebuilt counter trails the physically written records by at most 511 + 256, and the history before it is unchanged |
| `LogCrash.CrashKeepsSessions` | src/imu/imu_log.c:318-342 | a reset at any point of a drain costs closed sessions nothing and the running one at most 511 records, nothing once its refresh has begun, whether or not the directory still knows it |
| `LogArchive.ResetKeepsEntryIff` | src/imu/imu_log.c:318-342 | the entries a reset takes are exactly those a refresh cut short had already found overwritten, or all for another firmware or an interrupted erase |
| `LogCrash.CrashReadsWhatWasWritten` | src/imu/imu_log.c:318-342 | after a crash at any point of a drain, session reads return what was physically written last in their cells: the history, or one ring length before its end the forgotten or torn records |
| `LogCrash.TornBatchSparesExactly` | src/imu/imu_log.c:171-174 | a byte of a session read after the reboot is right for every possible torn batch exactly when it is within one ring length of what is then written, or one ring length before a byte that the batch spares and that is the same |
| `LogCrash.StopThenRebootIsIdentity` | src/imu/imu_log.c:401-419 | after stop, a reboot restores counter, next number, list and every readable byte |
| `LogCrash.LateDrainIsForgotten` | src/imu/imu_log.c:268-272 | a reboot after a late drain goes back by exactly the drained records |
| `LogCrash.InterruptedBootIsHarmless` | src/imu/imu_log.c:330-333 | a reset during the boot scan does not change the next boot |
| `LogCrash.OtherFirmwareStartsEmpty` | src/imu/imu_log.c:307-316 | the first boot of another firmware lists and reads nothing |
| `LogCrash.EraseStartsOver` | src/imu/imu_log.c:421-432 | after an erase nothing is listed or read, counter and numbers begin anew, and a reboot finds the same |
| `LogCrash.BootScan` | src/imu/imu_log.c:324-342 | on any directory of its own firmware the boot keeps number, start and header of every session, closes it, gives one that died before its first refresh no records, and takes the largest end for the counter |
| `LogCrash.RefusedBatchReadsOneRingBack` | src/imu/imu_log.c:245-253 | after a refused data write, with counters and directory moved on, a session read returns for the new records what lies one ring length before them |
| `ImuLogClass.ImuLog.constructor` | src/imu/imu_log.c:292-348 | the boot scan on the directory array computes the Boot transition |
| `ImuLogClass.ImuLog.WriterDrainBatch` | src/imu/imu_log.c:227-259 | draining on the arrays computes the Drain transition and changes nothing else |
| `ImuLogClass.ImuLog.InvalidateConsumed` | src/imu/imu_log.c:179-198 | frees exactly the non-current entries that start below the ring floor |
| `ImuLogClass.ImuLog.Start` | src/imu/imu_log.c:350-399 | computes the Start transition, busy and refused directory write included |
| `ImuLogClass.ImuLog.Stop` | src/imu/imu_log.c:410-418 | computes the Stop transition |
| `ImuLogClass.ImuLog.Erase` | src/imu/imu_log.c:421-432 | computes stop followed by the wipe |
| `ImuLogClass.ImuLog.Append` | src/imu/imu_log.c:450-468 | staging a chunk on the array computes the Append transition |
| `ImuLogClass.ImuLog.SessionList` | src/imu/imu_log.c:470-518 | returns the surviving sessions, insertion-sorted newest first, cut to the caller's room |
| `ImuLogClass.ImuLog.ReadSession` | src/imu/imu_log.c:520-578 | the span loop copies exactly the ReadSession bytes into the buffer and leaves the rest of it alone |
| `Rings.PushAppends` | src/imu/imu_log.c:459-466 | a push into a u32-counter ring appends to the queue it holds, if slots do not clash |
| `Rings.PopRemoves` | src/imu/imu_log.c:241-251 | copying k records and moving the tail removes the k oldest |
| `Rings.DividingRingNeverClashes` | common/imu_shared.h:14-19 | a ring whose size divides 2^32 is an exact FIFO across the wrap of its counters |
| `Rings.StagingClashesIffHazard` | src/imu/imu_log.c:81-81 | the 1536-slot ring clashes exactly when the head wrapped, 1024 or more are outstanding and the head is below 1024 |
| `Staging.AppendStagesPrefix` | src/imu/imu_log.c:450-468 | an append whose pushes meet no wrap hazard stages the prefix of the chunk that fits, in order, and counts the rest |
| `Staging.EarlyOrShortIsSafe` | src/imu/imu_log.c:459-466 | no push meets the hazard while the head counter stays short of its wrap, or while at most 1024 records are outstanding |
| `Staging.DrainTakesOldest` | src/imu/imu_log.c:241-251 | a drain batch is the oldest staged records, in order |
| `Staging.PushIsExactIff` | src/imu/imu_log.c:459-466 | staging one more record is exact if and only if the wrap hazard is absent |
| `CrossCore.RingIsSafe` | flpr/src/main.c:106-120 | under every interleaving, across counter wrap: at most 2048 outstanding, the pump delivers a prefix of what was published, every published record holds the readings of its sample, in the order taken, and samples are published, pending or counted overruns |
| `CrossCore.LostIffRingFull` | flpr/src/main.c:108-112 | a sample is lost exactly when 2048 records are outstanding |
| `CrossCore.PassDeliversWhatItFound` | src/imu/imu_pump.c:65-85 | whatever the producer does meanwhile, the pump goes back to sleep exactly when it has handed on everything it found when it woke, in chunks of 64 and a last smaller one |
| `CrossCore.NeverWritesASlotBeingCopied` | src/imu/imu_pump.c:65-84 | the producer never writes a slot the consumer has yet to copy |
| `CrossCore.GapsAreOverruns` | flpr/src/main.c:108-112 | every sample between two consecutive published ones was lost to a full ring |
| `SharedBlockClass.SharedBlock.TakeSample` | flpr/src/main.c:106-120 | one sampling iteration appends the stamped sample or counts one overrun |
| `SharedBlockClass.SharedBlock.PumpPass` | src/imu/imu_pump.c:65-85 | one pass delivers all published records in order, in chunks of 1 to 64, and empties the ring |
| `Pipeline.SessionsAccountForEverySample` | src/imu/imu_pump.c:65-96 | session records are an ordered duplicate-free subsequence of the samples taken, readings included; the seq16 difference minus one is, mod 65536, the ring overruns plus staging drops in between |
| `Pipeline.UnitStepsMeanNoLoss` | common/imu_shared.h:55-59 | for gaps up to 65536, a seq16 step of one means exactly that nothing was lost in between |
| `Handshake.AcknowledgedMeansApplied` | flpr/src/main.c:24-37 | between updates, an acknowledged number with status 0 means the sensor runs exactly the fields published with it |
| `Handshake.UpdateCanBeApplied` | src/app/session.c:52-68 | from any point between updates an update can be published, taken up and acknowledged with the sensor on its fields |
| `Handshake.TornMixIsPossible` | flpr/src/main.c:24-37 | during an update the acknowledgement can stand for a mix of two updates |
| `Handshake.ControlBlock.RunUpdate` | src/app/session.c:52-68 | writes the settings, content 0 without demand, and bumps the number |
| `Handshake.ControlBlock.ApplyConfig` | flpr/src/main.c:24-37 | acknowledges the published number, and with status 0 leaves the sensor on the published fields |
| `Dump.ReassemblyIsExact` | scripts/fleet.py:137-190 | after every schedule of requests, stalls, resumes, aborts and refusals, chunks arriving while a request is on its way included, the buffer equals the session up to max_end, and for a session with records done means exactly that max_end is its length |
| `Dump.OneRequestSuffices` | src/ble/ble_transport.c:361-432 | every collection by one request that nothing disturbs is done, with the whole session, once the thread rests and all chunks are in |
| `Dump.OneRequestCanFinish` | scripts/fleet.py:164-178 | and there is such a collection of every session with records |
| `Dump.UndisturbedSendsFullDump` | src/ble/ble_transport.c:377-431 | a request neither aborted, refused nor overtaken sends exactly its full dump |
| `Dump.CancelledSendsAtMostOneMore` | src/ble/ble_transport.c:339-366 | once cancelled, at most the chunk already built goes out before the thread takes the next request |
| `Dump.NoChunkMixesRequests` | src/ble/ble_transport.c:339-366 | over every run with requests atomic relative to the loads, every chunk comes from one issued request's session and byte range |
| `Dump.MixedLoadIsPossible` | src/ble/ble_transport.c:364-366 | otherwise a run exists in which a request is served with another's offset and length |
| `Dump.FullDumpCovers` | src/ble/ble_transport.c:377-432 | an undisturbed request delivers exactly its readable bytes in contiguous chunks, the final one alone marked last |
| `Dump.ServeRequest` | src/ble/ble_transport.c:377-432 | the send loop terminates and sends a prefix of those chunks |
| `Dump.DumpSink.OnChunk` | scripts/fleet.py:137-146 | any chunk, one behind the buffer included, changes buffer, max_end and done as the protocol's receive step, whose done `ReassemblyIsExact` pins down |
| `DumpOfLog.CollectedSessionIsWhatWasRecorded` | scripts/fleet.py:149-203 | a finished collection of a retained, intact session whose reads do not wrap their address holds the bytes that were recorded and are still in the ring |
| `DumpOfLog.EarlySessionsAreAddressable` | src/imu/imu_log.c:564-574 | up to 2^28 records no read of any session wraps its address |
| `Settings.PowerCutLosesAtMostTheNewestChange` | src/settings/settings_store.c:64-136 | over every undisturbed run a boot after a cut loads the last completed record or the one being written, in range, and the pending write never aims at the newest valid record |
| `Settings.CutIsSafeIffCleanAndOddGap` | src/settings/settings_store.c:64-82 | over every run, values changed during writes and failed writes included, a boot after any cut loads the last completed record or the pending one exactly when the last completed write kept its values and nothing is pending, nothing was ever stored, or the pending write is an odd number of generations ahead |
| `Settings.SpoiledWriteIsLost` | src/settings/settings_store.c:71-75 | a run without errors after which nothing is pending and every cut loses the completed record |
| `Settings.WriteIsLoadedIffUnchanged` | src/settings/settings_store.c:71-75 | over every run, a write that goes through is what the next boot loads exactly when no value changed while it was pending; else an older record is |
| `Settings.SetDuringWriteCanLoseEverything` | src/settings/settings_store.c:64-82 | a run from the empty store without errors: a set during a pending write, then a cut, leaves only defaults |
| `Settings.WriteErrorCanLoseEverything` | src/settings/settings_store.c:71-79 | a run with one returned write error and no later change ends the same |
| `Settings.PersistIsLoadedIffNoWrap` | src/settings/settings_store.c:118-122 | an undisturbed persist is what the next boot loads exactly when the generation does not wrap |
| `Settings.SettingsStore.constructor` | src/settings/settings_store.c:96-140 | loads the newest valid slot or defaults, every registered value in range |
| `Settings.SettingsStore.Get` | src/settings/settings_store.c:149-157 | returns the value, the default before init, 0 for unknown ids, in range |
| `Settings.SettingsStore.Set` | src/settings/settings_store.c:159-172 | stores what `SetStoresTheNearest` describes once loaded, and schedules exactly on change |
| `Settings.SetStoresTheNearest` | src/settings/settings_store.c:159-172 | a set of a known id stores the permitted value nearest to the request, a permitted request itself, and touches no other id; an unknown id changes nothing |
| `Settings.LoadFallsBackToDefaults` | src/settings/settings_store.c:127-136 | loading keeps permitted values and replaces every other one by its default |
| `Settings.SettingsStore.Persist` | src/settings/settings_store.c:64-82 | with any settings_set calls landing between CRC and flash write, the slot of the bumped generation holds the changed record under the old CRC; an error still bumps the generation |
| `Stream.StreamAccounting` | src/ble/ble_transport.c:153-293 | picked samples are sent, pending or dropped, on the counters across their wrap; sent ones keep order; credits plus outstanding notifications stay 2 |
| `Stream.RestingSubscriptionsAccount` | src/ble/ble_transport.c:299-306 | the same over every run whose subscriptions begin between two packets |
| `Stream.TxAlwaysMoves` | src/ble/ble_transport.c:153-184 | while busy the TX thread can always take a step, each brings it closer to rest, and nothing else moves it |
| `Stream.RestingSendsWhatIsPending` | src/ble/ble_transport.c:260-272 | a resting TX thread can send exactly when something is pending, up to 14 samples |
| `Stream.EnableIsSafeIffNotSending` | src/ble/ble_transport.c:286-302 | after a subscription at any moment and the next move of the tail, the accounting holds exactly when nothing was being sent or the packet was given up after it with at least as many new samples staged; else the count is m - n or 2^32 - (n - m) |
| `Stream.OvertakenDiscardsAll` | src/ble/ble_transport.c:234-237 | with the tail ahead of the head every picked sample is discarded until packets of stale slots have brought the count down |
| `Stream.SinkStagesPicked` | src/ble/ble_transport.c:225-245 | one sink call stages exactly the picked samples that fit, in order, and counts the rest |
| `Stream.ChosenAreTheMultiples` | src/ble/ble_transport.c:229-232 | the picked samples are exactly those whose counter value is a multiple of the decimation, in order |
| `Stream.EveryDecimthIsChosen` | src/ble/ble_transport.c:229-232 | from the start of a subscription the first sample and then every decim-th one is picked, and no more |
| `Stream.StreamFifo.Sink` | src/ble/ble_transport.c:225-245 | decimating into the array computes the sink transition, whatever the counters |
| `Stream.StreamFifo.SendPacket` | src/ble/ble_transport.c:274-291 | a packet takes at most 14 slots from the tail, the oldest samples of a sound FIFO, and counts them when not sent |
| `Preview.TickKeeps` | src/ble/ble_transport.c:189-222 | shift at most 4, patience 5 to 30, calm below patience while shifted, in every state |
| `Preview.ControllerStaysInRange` | src/ble/ble_transport.c:65-92 | after any sequence of ticks and re-derivations from power-on the same bounds hold and the effective decimation is 1 to 255 |
| `Preview.UpdateKeepsBudget` | src/ble/ble_transport.c:75-92 | a re-derivation keeps the target rate exactly when it is within reach of a byte, no coarser than needed, and drops every back-off |
| `Preview.TargetIsTheSmaller` | src/ble/ble_transport.c:78-84 | the target is the link budget or a smaller rate the host asked for |
| `Preview.ShiftDivides` | src/ble/ble_transport.c:68-73 | the effective decimation is the decimation times 2 to the shift, at most 255 |
| `Preview.WindowLaw` | src/ble/ble_transport.c:201-221 | heavy drops halve the rate and cost patience after a recent probe, a few only reset the calm count, calm windows double the rate once patience is reached |
| `Preview.TickLaw` | src/ble/ble_transport.c:189-200 | windows are at least a second apart and see the drops since the one before |
| `Preview.BudgetKeptIffReachable` | src/ble/ble_transport.c:75-86 | the preview keeps its budget exactly when the budget is at least 1/255 of the sensor rate, and decimates no more than needed |
| `Preview.QuietWindowsRestoreFullRate` | src/ble/ble_transport.c:213-218 | the shift reaches 0 after exactly (adapt - 1) * need + (need - calm) quiet windows |
| `Preview.FourHeavyWindowsForceFour` | src/ble/ble_transport.c:201-204 | four windows of more than 10 drops force the strongest back-off |
| `Preview.FirstWindowIsTrueIffTakenRight` | src/ble/ble_transport.c:198-200 | the first tick after re-subscribing acts as on the true drops exactly when the remembered count leaves their kind (none, few, many) unchanged |
| `Preview.FirstWindowIsTrueIffMemoryClear` | src/ble/ble_transport.c:198-200 | it does so for every number of drops exactly when the remembered count is 0 |
| `Preview.PhantomDropsBackOff` | src/ble/ble_transport.c:299-306 | after a subscription without a drop the rate is halved exactly when the remembered count is between 1 and 2^32 - 11 |
| `Preview.AutomaticRatesReachable` | src/ble/ble_transport.c:75-86 | the automatic preview keeps its budget at every sensor rate; a 26 Hz cap at the top rate does not |
| `Preview.PreviewController.StreamAdaptTick` | src/ble/ble_transport.c:189-222 | the tick on the static variables computes the controller transition and keeps its invariant |
| `Preview.PreviewController.StreamUpdateDecim` | src/ble/ble_transport.c:75-92 | re-deriving the decimation computes UpdateDecim |
| `HostPreview.BufferHoldsTheNewest` | scripts/caterpillar_gui.py:62-77 | over all appends the newest cap entries are the newest of everything, length at most 2 cap, contiguous when no batch exceeds cap |
| `HostPreview.StreamBuffer.Append` | scripts/caterpillar_gui.py:62-77 | truncation, compaction and copy on the array compute one append |
| `HostPreview.UnwrapIsTrueIffGapsBelowWrap` | scripts/caterpillar_gui.py:940-946 | unwrapped numbers equal the true sample counts up to a constant exactly when every gap is below 65536 |
| `HostPreview.UnwrapAcrossPackets` | scripts/caterpillar_gui.py:940-946 | packet boundaries do not matter |
| `HostPreview.SeqUnwrapper.OnPacket` | scripts/caterpillar_gui.py:919-946 | one packet unwraps from the carried state and leaves the state for the next |
| `Digipot.VoltageOfTapGivesTap` | src/drivers/max5419.c:162-198 | requesting the voltage of a permitted tap gives that tap |
| `Digipot.TapGrowsWithRequest` | src/drivers/max5419.c:185-198 | a higher request never gives a lower tap |
| `Digipot.TapIsNearest` | src/drivers/max5419.c:185-198 | inside the range the tap is the nearest to the exact position |
| `Digipot.RailLimitIffTapLimit` | src/drivers/max5419.c:61-62 | a tap keeps the rail within 4.2 V exactly when it is at most 253 |
| `Digipot.NoAcceptedRequestExceedsTheRail` | src/drivers/max5419.c:172-206 | no accepted request puts the rail above 4.2 V |
| `Digipot.RampPathSteps` | src/drivers/max5419.c:149-158 | the k-th write of a ramp is k + 1 taps from the start towards the goal |
| `Digipot.Max5419.RampToTap` | src/drivers/max5419.c:143-160 | writes a prefix of the one-tap path, all of it when the bus answers, and then stands at the goal |
| `Digipot.Max5419.SetVoltage` | src/drivers/max5419.c:172-206 | rejects exactly the out-of-range requests, and ends at the tap for an accepted one |
| `Digipot.Max5419.SetTap` | src/drivers/max5419.c:110-133 | rejects taps above 253, retries once, and records only writes the chip took |

## Left out

- Zephyr and Bluetooth stack calls, GATT tables, advertising and connection parameters: a notification is accepted and later delivered in order, or refused.
- Sensor, SPI, I2C, PWM, ADC and LED drivers, boot images and devicetree: hardware and build.
- Widgets, plotting, event-loop scheduling, file export and command lines of the host scripts.
- Wall-clock stamping, console messages and `session_detached`: they do not steer the log.
- Counter exhaustion of the log: runs stop before 2^32 - 2 records or 2^32 - 1 session numbers since the last erase.
- Flash read errors and the errno results they cause: reads of the device are taken to succeed.
- Data writes of the log are taken to succeed in runs; `RefusedBatchReadsOneRingBack` says what a refused one exposes.
- The bounded wait of stop for the writer: a stop may find any number of records still staged.
- A stop or start that lands between the two locked sections of an erase: commands run on one thread.
- A firmware upload that overwrites the log region: only its effect on the stamp is modelled.
- `AcknowledgedMeansApplied`: assumes one app-side writer and fewer than 2^32 unacknowledged updates.
- `DumpedBytesAreTheSamples`: leaves out runs in which a push meets the wrap hazard of the staging ring; sessions a crash made unsafe to read are covered byte by byte by `ReachableReadsExactly`.
- A reset is taken to restart both cores, with the shared ring holding anything.
- The arbitration that keeps a detached session sampling after a disconnect: which commands it issues is left to the caller.
- Credits of the dump thread: a chunk is accepted or refused, the credit count itself is modelled for the stream only.
- The torn-record check of the settings store is an ideal CRC; its collisions are not modelled.
- `PowerCutLosesAtMostTheNewestChange`: about runs without returned errors and without sets during a pending write; `CutIsSafeIffCleanAndOddGap` covers all runs.
- `CutIsSafeIffCleanAndOddGap`: the generation counter does not wrap in its runs; `PersistIsLoadedIffNoWrap` says what a wrap does.
- The TX thread's `tail + n` is one step: a subscription that lands between its read and its write of the tail is not modelled.
- Debounce timing of settings and the text-message ring of the transport.
- `StreamBuffer`: one array of rows stands for the three parallel arrays of time, acceleration and rotation.
- The digipot formulas are over the reals; single-precision rounding is not modelled.
