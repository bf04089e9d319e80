# Verification of the WalleCube UPS library

A Dafny model of `wclib`, the library that talks to a WalleCube uninterruptible power
supply over Bluetooth LE, with proofs about its concurrency, its state and its arithmetic.

`dafny verify dfyconfig.toml` checks everything.

## What is modelled

- **Settings that are stored as one block** (`SharedBlock`, `SharedBlockProofs`,
  `SharedBlockOrigins`, `SharedBlockResults`, `SharedBlockAlone`, `ForeignChanges`,
  `BlockSettings`, `SettingsAlone`). Setters of single values read the whole block, merge their value and
  write it back, under a lock, while other tasks read without it. The model is a state
  machine: one event is one stretch between two awaits of a task, of the UPS or of the link,
  so every sequence of events is an interleaving. Every block carries the history of changes
  it was made of and its revision, as proof bookkeeping. `Run` covers any number of tasks,
  all three ways of learning the present values (none, a read, a query answered by a
  notification), replies that wake the wrong task, lost requests and answers, tasks that time
  out or are cancelled while their write is still under way, and writes of other clients at
  any moment.
- **Publishing of changed fields** (`DeviceBase`, `Throttle`, `DataWatch`, `Listeners`).
  `DeviceBase.Device` assigns fields, records names and calls listeners in place. Each
  listener has a picture of its field; the invariant `AtRest` says when pictures may differ
  from fields. The throttle and the watchdog are functions of their own, proved over all
  runs, and the methods are proved to implement them.
- **The connection** (`ConnectionSpec`, `ConnectionObject`, `ConnectionRuns`,
  `SessionTasks`). `ConnectionSpec` says what each stretch between two awaits does,
  `ConnectionObject.Connection` does it in place, `ConnectionRuns` composes the stretches
  with an adversarial environment, and `Drive` proves that the object goes through the
  states of these runs.
- **Wire formats and frame functions** (`Integers`, `Codec`, `Packets`, `Encryption`,
  `ChargingHold`, `RuntimeEstimate`, `AdapterLimits`,
  `SettingsBlocks`, `PowerBoard`, `CommandResults`).

## Assumptions

- The UPS carries out requests in the order in which they were sent, and its answers arrive
  in order. Any of them may be lost.
- `connect` and `disconnect` of one connection do not overlap. The awaited calls raise only
  the exception types `connect` handles.
- Notifications come only from a client whose link is up and which was not told to end it.
  A link that went down stays down; its callback comes afterwards, at any time and any
  number of times.
- Listeners are not called again from within a listener and do not raise. Being called, a
  listener reads its field; a new one starts with the present value.
- The timer of the watch task is ideal: it fires when its sleep ends.
- The cipher is a length-preserving bijection on whole blocks for every key, and the digest
  that derives the key from an address is any function.
- Time and arithmetic are exact.

## Where the code and its comments differ

- The comments in `_write_adapter` and `_write_idle_backlight` say that reading first keeps a
  change made on the device meanwhile. A change that no setter has overwritten yet survives
  exactly if the UPS made it before it gave the answer the setter continues from
  (`SurvivesIff`). For setters that read
  the block that is the answer to their own read, so they keep every change made before they
  were called (`ReadingKeepsEarlierChanges`). Setters that query the block continue from the
  notification delivered last, which can answer an earlier request of another task; so a
  change made before the call can be lost (`QueryingLosesEarlierChange`), unless no answer
  from before the change is under way at the call (`QueryingKeepsEarlierChanges`).
- A result does not name its command. `send_confirmed_command` takes the first one that
  arrives, which after a timeout can be that of the earlier command (`OwnResultIff`).
- The documentation of the configuration message speaks of a type tagged with `0x40`, and
  the builder accepts types up to 255. It is inverse to the parser exactly for types below
  64 (`DecodeEncodeConfig`).
- `connect` says that a failure is passed to the listeners. It is passed once, unless the
  errors overflowed before; then there is exactly one more report (`ConnectRaises`,
  `EarlyOverflowReportsTwice`). `connect` can even return AUTHENTICATED after it reported too
  many errors, with a client that was told to disconnect (`EarlyOverflowCanReturn`).

## Model

| member | source | states |
|---|---|---|
| SharedBlockResults.NoLostUpdate | custom_components/wallecube_ups_ble/wclib/devices/w150.py:639-708 | for every register, any number of setters of any kind and every interleaving with losses, abandoned tasks and other clients: a component whose setter was acknowledged keeps that value unless a later setter in lock order, or another client, wrote the same component after it |
| SharedBlockResults.ReturnedValueIsKept | custom_components/wallecube_ups_ble/wclib/devices/w150.py:639-708 | the same for the caller: a setter that was called with a change and returned has exactly that change in the block, and each of its values stays unless a later setter or another client wrote it |
| SharedBlockResults.SettersWriteTheirChange | custom_components/wallecube_ups_ble/wclib/devices/w150.py:639-708 | over all runs, everything a setter issues or has in the block is the change it was called with, and it returns only with its own confirmed change |
| SharedBlockResults.OnlySetterDecides | custom_components/wallecube_ups_ble/wclib/devices/w150.py:639-708 | a value that one call alone set in the whole run, and no other client, is in the block once that call returned, whatever happens to the other values meanwhile |
| SharedBlockResults.BothValuesAreKept | custom_components/wallecube_ups_ble/wclib/devices/w150.py:681-708 | two setters of different values of one block, interleaved in any way: both acknowledged values are in the block as long as nobody else wrote these values |
| SharedBlockResults.BlockIsSerial | custom_components/wallecube_ups_ble/wclib/devices/w150.py:639-660 | at every moment of every run the block of the UPS is the initial block with the changes of its history applied one after the other; the setters in the history are in lock order, each with the change it was called with, and every acknowledged change is among them |
| SharedBlockResults.Serialisable | custom_components/wallecube_ups_ble/wclib/devices/w150.py:639-660 | if every computed block was acknowledged and no other client wrote, the block is exactly the initial block with all changes applied in lock order |
| SharedBlockResults.ReturnedSettersAreAcknowledged | custom_components/wallecube_ups_ble/wclib/devices/w150.py:639-708 | a setter that returned without an exception had its own write confirmed, and its change is in the history of the block |
| SharedBlockResults.UnavailableWritesNothing | custom_components/wallecube_ups_ble/wclib/devices/w150.py:650-653 | a setter that raised `SettingUnavailable` has no change in the block, none issued and none on its way |
| SharedBlockResults.MutualExclusion | custom_components/wallecube_ups_ble/wclib/devices/w150.py:664-690 | at most one task is inside the lock, over all runs |
| SharedBlockResults.LockIsNeverLost | custom_components/wallecube_ups_ble/wclib/devices/w150.py:664-690 | over all runs, whoever has the lock is inside, so it is free again once its setter returned, raised an exception, timed out or was cancelled |
| SharedBlockResults.AbandonFreesLock | custom_components/wallecube_ups_ble/wclib/devices/w150.py:642-660 | a setter that times out or is cancelled at any await leaves the lock if it has it and changes nothing else |
| SharedBlockResults.SettersContinueUpToDate | custom_components/wallecube_ups_ble/wclib/devices/w150.py:788-797 | over all runs, what a setter continues from covers every acknowledged change, whether its own read was answered or it was woken by a notification for any other request |
| SharedBlockResults.LastChangeDecides | custom_components/wallecube_ups_ble/wclib/devices/w150.py:662-708 | a component of a replayed history has the value of the last change that sets it |
| SharedBlockProofs.AppliedIsFresh | custom_components/wallecube_ups_ble/wclib/devices/w150.py:699-707 | a write carried out by the UPS yields a block that equals its replayed history and loses no acknowledged change, although its basis can be an older version than the block it replaces |
| SharedBlockProofs.RunKeeps | custom_components/wallecube_ups_ble/wclib/devices/w150.py:788-797 | the invariant of the protocol (freshness of every version under way, order of the writes, what each task may rely on) holds after every run |
| SharedBlockOrigins.BasisWasAnswered | custom_components/wallecube_ups_ble/wclib/devices/w150.py:391-405 | every block under way was computed from an answer of the UPS: to the own read of a setter that reads the block, and for one that queries it, to whatever request, the one brought last before it resumed |
| SharedBlockAlone.DirectSetterAlone | custom_components/wallecube_ups_ble/wclib/devices/w150.py:639-660 | undisturbed, a standby setter raises `SettingUnavailable` exactly if the read shows values below the minimum, writing nothing; otherwise its change is merged into the block it read and the result is shown |
| SharedBlockAlone.QueriedSetterAlone | custom_components/wallecube_ups_ble/wclib/devices/w150.py:681-708 | undisturbed, a setter that queries the block returns with its change merged into the block of the UPS and the result shown, whatever was shown before |
| SharedBlockAlone.BlindSetterAlone | custom_components/wallecube_ups_ble/wclib/devices/w150.py:662-666 | undisturbed, a setter that writes without asking returns, leaves the lock, and has its change merged into the block of the UPS and the result shown |
| SharedBlockAlone.ReaderAlone | custom_components/wallecube_ups_ble/wclib/devices/w150.py:748-757 | an undisturbed read outside the lock shows the block exactly if its values are known, and clears what was shown otherwise |
| SharedBlockAlone.RequesterAlone | custom_components/wallecube_ups_ble/wclib/devices/w150.py:775-783 | an undisturbed request outside the lock shows the block of the UPS |
| SettingsAlone.SleepTimeAlone | custom_components/wallecube_ups_ble/wclib/devices/w150.py:639-660 | the sleep time is set if and only if the block read has at least 20 s and 20 mA; the threshold keeps its value; otherwise nothing is sent |
| SettingsAlone.ThresholdAlone | custom_components/wallecube_ups_ble/wclib/devices/w150.py:639-660 | the same for the current threshold, which leaves the sleep time |
| SettingsAlone.AdapterVoltageAlone | custom_components/wallecube_ups_ble/wclib/devices/w150.py:734-746 | the adapter voltage is set if and only if the block read has at least 5000 mV and 1000 mA; the current keeps its value |
| SettingsAlone.AdapterCurrentAlone | custom_components/wallecube_ups_ble/wclib/devices/w150.py:734-746 | the same for the adapter current, which leaves the voltage |
| SettingsAlone.ScreenTimeoutAlone | custom_components/wallecube_ups_ble/wclib/devices/w150.py:662-666 | the screen timeout is set and the idle backlight level stays as it was |
| ForeignChanges.StandsIff | custom_components/wallecube_ups_ble/wclib/devices/w150.py:639-708 | over all runs, a change of another client is in the block at every moment since it was made if and only if every whole block written since was computed from an answer that the UPS gave after the change |
| ForeignChanges.SurvivesIff | custom_components/wallecube_ups_ble/wclib/devices/w150.py:639-708 | a change of another client that stands when a whole block is written survives if and only if the UPS made it before it gave the answer that the setter continued from |
| ForeignChanges.WrittenBlockHasAnsweredChanges | custom_components/wallecube_ups_ble/wclib/devices/w150.py:639-708 | a whole block written contains of other clients exactly the changes that were in the block when the UPS gave that answer |
| ForeignChanges.StandingChangeShows | custom_components/wallecube_ups_ble/wclib/devices/w150.py:639-708 | each value of a change that stands is in the block unless a later change set it |
| ForeignChanges.ReadingKeepsEarlierChanges | custom_components/wallecube_ups_ble/wclib/devices/w150.py:618-622 | a setter that reads the block itself never overwrites a change that stands when it is called, however long it waits for the lock |
| ForeignChanges.QueryingKeepsEarlierChanges | custom_components/wallecube_ups_ble/wclib/devices/w150.py:788-797 | a setter that queries the block never overwrites a change that stands when it is called either, if no answer under way at the call was given before the change, whatever other tasks ask meanwhile |
| ForeignChanges.QueryingLosesEarlierChange | custom_components/wallecube_ups_ble/wclib/devices/w150.py:688-708 | a setter that queries the block can: a run in which the answer to an earlier request of another task wakes it, and the change made before its call is lost |
| SharedBlockAlone.ForeignChangeIsKept | custom_components/wallecube_ups_ble/wclib/devices/w150.py:639-660 | undisturbed, a standby setter merges its change into what another client wrote before |
| SharedBlockAlone.ForeignChangeIsOverwritten | custom_components/wallecube_ups_ble/wclib/devices/w150.py:639-660 | whatever another client writes between the read and the write of a standby setter is lost |
| BlockSettings.StandbyKeepsBoth | custom_components/wallecube_ups_ble/wclib/devices/w150.py:543-554 | sleep time and current threshold set concurrently, in any run in which nothing else writes them, are both in the block at the end |
| BlockSettings.ScreenKeepsBoth | custom_components/wallecube_ups_ble/wclib/devices/w150.py:556-578 | screen timeout and idle backlight level set concurrently are both kept, although only one of them queries the block |
| BlockSettings.WakeOnLanKeepsAll | custom_components/wallecube_ups_ble/wclib/devices/w150.py:583-593 | all three values of the Wake-on-LAN trigger set concurrently are kept |
| BlockSettings.AdapterKeepsBoth | custom_components/wallecube_ups_ble/wclib/devices/w150.py:615-637 | adapter voltage and current set concurrently are both kept |
| DeviceBase.Device.DataParse | custom_components/wallecube_ups_ble/wclib/devices/w150.py:324-363 | the stretch that parses a telemetry frame starts and ends with nothing recorded and every picture right or pending; the fields have the assigned values; exactly the unthrottled listeners of changed fields are called, once each, and throttled ones exactly as often as the throttle delivers their field |
| DeviceBase.Device.ApplySettings | custom_components/wallecube_ups_ble/wclib/devices/w150.py:748-757 | the same for a settings read or configuration message that assigns and publishes before the next await |
| DeviceBase.Device.RejectFrame | custom_components/wallecube_ups_ble/wclib/devices/w150.py:324-327 | a frame that cannot be parsed forgets no change |
| DeviceBase.Device.Replay | custom_components/wallecube_ups_ble/wclib/devicebase.py:339-367 | over any sequence of frames, settings reads, checks, subscriptions and their ends, period changes and authentications: at every await nothing is recorded, unthrottled pictures equal the fields, throttled ones equal them or are pending |
| DeviceBase.Device.Assign | custom_components/wallecube_ups_ble/wclib/props/updatable_props.py:67-72 | assigning stores the value and records the name exactly if the value changed |
| DeviceBase.Device.AssignAll | custom_components/wallecube_ups_ble/wclib/props/raw_data_props.py:12-17 | the last assignment of each field wins; every changed field is recorded, and if no field is assigned twice only changed ones are |
| DeviceBase.LastAssignmentWins | custom_components/wallecube_ups_ble/wclib/props/updatable_props.py:67-72 | after any assignments a field has the value of its last one, or keeps what it had |
| DeviceBase.Device.PublishThrottled | custom_components/wallecube_ups_ble/wclib/devicebase.py:349-367 | the throttle moves as its specification says, the names it delivers have exactly their throttled listeners called once each, and all others stay pending |
| DeviceBase.Device.PublishWithThrottle | custom_components/wallecube_ups_ble/wclib/devicebase.py:339-347 | each name passes the throttle once and calls its unthrottled listeners once, in any order of the set; over the whole call every throttled listener is called exactly as often as the throttle delivered its name; afterwards these fields are no longer out of date for anybody |
| DeviceBase.Device.PublishUnthrottled | custom_components/wallecube_ups_ble/wclib/devicebase.py:339-347 | past the throttle every listener group of every name is called exactly once and the throttle is unchanged |
| DeviceBase.Device.PublishUpdates | custom_components/wallecube_ups_ble/wclib/devices/w150.py:814-818 | publishing the recorded names brings every picture up to date or to pending, and leaves nothing recorded |
| DeviceBase.Device.ApplyAll | custom_components/wallecube_ups_ble/wclib/devicebase.py:349-367 | over any sequence of frames and settings within T seconds, the listeners of each field that a steady throttle with period P serves are called at most T div P + 1 times, and exactly as often as the throttle delivers the field |
| DeviceBase.Device.CallPending | custom_components/wallecube_ups_ble/wclib/devicebase.py:363-365 | every throttled listener of a pending field has seen it after the flush, in whatever order the set is iterated |
| DeviceBase.Device.CheckData | custom_components/wallecube_ups_ble/wclib/devicebase.py:279-291 | the check follows the watchdog specification; going stale calls every listener of every data field once and no other |
| DeviceBase.Device.FrameProcessed | custom_components/wallecube_ups_ble/wclib/devicebase.py:265-273 | a processed frame makes the data current; only if it was stale every data field is published once |
| DeviceBase.Device.WatchSession | custom_components/wallecube_ups_ble/wclib/devicebase.py:252-296 | over any session of frames and checks the device goes through the states of the watchdog specification, and every listener of every data field, throttled or not, is called exactly as often as the data went stale or became current |
| DeviceBase.Device.Subscribe | custom_components/wallecube_ups_ble/wclib/devicebase.py:316-337 | a new listener joins its group and keeps every picture right or pending |
| DeviceBase.Device.Unsubscribe | custom_components/wallecube_ups_ble/wclib/devicebase.py:331-337 | the returned function takes the listener out of its group once and keeps every picture of the others right or pending |
| Throttle.PhasesMoveForward | custom_components/wallecube_ups_ble/wclib/devicebase.py:352-360 | over any calls the phases only move forward (0, deadline, None) and a deadline once set stays |
| Throttle.NothingWaitsAtFirst | custom_components/wallecube_ups_ble/wclib/devicebase.py:327-330 | a fresh throttle delivers every call at once for five seconds, and a deadline is five seconds after one of the calls |
| Throttle.SteadyIff | custom_components/wallecube_ups_ble/wclib/devicebase.py:353-360 | over any calls from the start, the throttle is steady exactly if some calls came too soon after a flush, one of them more than five seconds after the first |
| Throttle.BecomesSteadyIff | custom_components/wallecube_ups_ble/wclib/devicebase.py:353-361 | one call makes it steady exactly if the deadline passed and the period did not; the next call within a period is then held back |
| Throttle.NoPeriodNoWait | custom_components/wallecube_ups_ble/wclib/devicebase.py:352-361 | without an update period every call is delivered at once and the phase never changes |
| Throttle.PendingIff | custom_components/wallecube_ups_ble/wclib/devicebase.py:349-367 | over any calls, a name is pending exactly if it was published, or pending at the start, and nothing was flushed then or since |
| Throttle.FlushesAreSpaced | custom_components/wallecube_ups_ble/wclib/devicebase.py:353-361 | flushes of a steady throttle are at least one period apart, for any clock |
| Throttle.FlushRate | custom_components/wallecube_ups_ble/wclib/devicebase.py:353-361 | any window of length T has at most T div P + 1 flushes of a steady throttle with period P |
| Throttle.FlushRateFromStart | custom_components/wallecube_ups_ble/wclib/devicebase.py:349-367 | a bound that does not assume the steady phase: more than five seconds after some call came too soon, any window of length T has at most T div P + 2 flushes |
| Throttle.FirstCallAfterPeriodDelivers | custom_components/wallecube_ups_ble/wclib/devicebase.py:353-367 | before a period passed nothing is flushed; the first publish at or after last flush + P delivers all names that waited |
| DataWatch.CurrentIsRecent | custom_components/wallecube_ups_ble/wclib/devicebase.py:279-291 | while the data is current the next check comes no later than 60 s after the last frame or session start, over all runs of an ideal timer |
| DataWatch.StaleIsOverdue | custom_components/wallecube_ups_ble/wclib/devicebase.py:279-291 | while it is stale the last frame is at least 60 s old, or the data was already stale when the session began and no frame came |
| DataWatch.ChangesAreExact | custom_components/wallecube_ups_ble/wclib/devicebase.py:265-291 | data goes stale only at a check exactly 60 s after the last frame or session start, becomes current only with a frame, and every frame makes it current |
| DataWatch.SilenceGoesStale | custom_components/wallecube_ups_ble/wclib/devicebase.py:275-291 | without frames the data goes stale at the first or second next check, at 60 s sharp |
| Listeners.ListenerGroup.Call | custom_components/wallecube_ups_ble/wclib/listeners.py:28-31 | exactly the listeners present when the call began are called, in order, even those removed meanwhile; afterwards the removals of all of them took place |
| Listeners.ListenerGroup.Remove | custom_components/wallecube_ups_ble/wclib/listeners.py:18-20 | the returned function removes the first occurrence, or does nothing if there is none |
| Listeners.RemovedOne | custom_components/wallecube_ups_ble/wclib/listeners.py:18-20 | removing takes away exactly one occurrence |
| Listeners.RemovingTwice | custom_components/wallecube_ups_ble/wclib/listeners.py:18-20 | removing a second time changes nothing |
| Listeners.AddThenRemove | custom_components/wallecube_ups_ble/wclib/listeners.py:8-20 | removing a listener undoes adding it |
| ConnectionRuns.ConnectReturns | custom_components/wallecube_ups_ble/wclib/connection.py:194-235 | however the link drops, callbacks come late and requests fail: when `connect` returns, it is AUTHENTICATED on the very client it established, that link is up and not reported lost, and the cipher is set, if and only if the errors did not overflow meanwhile |
| ConnectionRuns.ConnectAlone | custom_components/wallecube_ups_ble/wclib/connection.py:194-235 | an undisturbed connect returns AUTHENTICATED on the new client with the key found, error counter 0 and no report, and announces the six states in order, with or without a configuration channel, and also if subscribing to it fails |
| ConnectionRuns.LinkAdvancesIff | custom_components/wallecube_ups_ble/wclib/connection.py:211-227 | over all runs, the link leads to the read of the info block if and only if it is up and the device has that block; otherwise which exception is raised, and the client is told to end its link |
| ConnectionRuns.InfoAdvancesIff | custom_components/wallecube_ups_ble/wclib/connection.py:349-396 | the info block leads to the telemetry subscription if and only if the link is live, a key was found and the device has telemetry; otherwise which exception is raised |
| ConnectionRuns.TelemetryAdvancesIff | custom_components/wallecube_ups_ble/wclib/connection.py:389-411 | the telemetry subscription leads on if and only if it succeeded on a live link, to the configuration channel if there is one and to the session if not |
| ConnectionRuns.ConfigReturnsIff | custom_components/wallecube_ups_ble/wclib/connection.py:397-415 | the configuration subscription leads to the session if and only if the link is live and it did not fail, or failed with a Bluetooth error |
| ConnectionRuns.ConnectRaises | custom_components/wallecube_ups_ble/wclib/connection.py:229-231 | when `connect` raises, the state matches the exception, no client is left, the next `connect` goes ahead, and the failure was reported exactly once, preceded by exactly one report of too many errors if and only if the errors overflowed before |
| ConnectionRuns.EarlyOverflowReportsTwice | custom_components/wallecube_ups_ble/wclib/connection.py:336-347 | a run in which six bad frames before the end of the handshake make `connect` report two disconnects |
| ConnectionRuns.EarlyOverflowCanReturn | custom_components/wallecube_ups_ble/wclib/connection.py:336-347 | a run in which the errors overflow during the handshake, too many errors are reported, the client is told to disconnect, and `connect` returns AUTHENTICATED all the same |
| ConnectionRuns.HandshakeBlocksConnect | custom_components/wallecube_ups_ble/wclib/connection.py:200-204 | during a handshake another `connect` returns at once if and only if the errors did not overflow, so an exception outside the handled types would leave it blocked |
| ConnectionRuns.ConnectProceedsIff | custom_components/wallecube_ups_ble/wclib/connection.py:200-206 | over all runs, `connect` goes ahead if and only if no other call runs and there is no session that has not ended; otherwise it changes nothing |
| ConnectionRuns.SessionReportsOnce | custom_components/wallecube_ups_ble/wclib/connection.py:237-258 | after AUTHENTICATED `on_disconnect` is called by the first event that ends the session (reported loss of its link, sixth error in a row) and by no other until the next `connect` |
| ConnectionRuns.CallerDisconnectIsSilent | custom_components/wallecube_ups_ble/wclib/connection.py:260-268 | after `disconnect` by the caller nothing is reported until the next `connect`, also not by a late callback |
| ConnectionRuns.DisconnectEndsLink | custom_components/wallecube_ups_ble/wclib/connection.py:260-268 | `disconnect` clears the client, ends its link if that is up, and ends DISCONNECTED, announcing DISCONNECTING only if there was a link, and no state twice |
| ConnectionRuns.StatusIsAnnounced | custom_components/wallecube_ups_ble/wclib/connection.py:513-517 | over all runs the state is the one the listeners were told last |
| ConnectionRuns.OldCallbacksAreIgnored | custom_components/wallecube_ups_ble/wclib/connection.py:237-242 | the callback of an older client never changes a newer session, its state or its reports |
| ConnectionRuns.ErrorCounter | custom_components/wallecube_ups_ble/wclib/connection.py:336-347 | over all runs the counter is the number of errors in a row modulo six, and the overflow branch is taken exactly at each sixth |
| ConnectionRuns.RunKeeps | custom_components/wallecube_ups_ble/wclib/connection.py:194-268 | the invariant over the program counter of `connect` and `disconnect`, the client, the reports and the links holds after every run |
| ConnectionObject.Connection.Drive | custom_components/wallecube_ups_ble/wclib/connection.py:194-347 | any sequence of calls, ended awaits, callbacks and notifications takes the object with its fields updated in place through a run of `ConnectionRuns`, with the key adopted that is the first to open the block read; so the results about runs hold for it |
| ConnectionObject.Connection.OnInfoRead | custom_components/wallecube_ups_ble/wclib/connection.py:349-387 | the stretch after the info read: adopts the first candidate whose plaintext is valid, fails exactly if none is, and remembers whether it came from the advertised name |
| SessionTasks.Device.OnAuthenticated | custom_components/wallecube_ups_ble/wclib/devicebase.py:236-255 | every authentication leaves exactly one running task of each kind the device has, held in its field, and none of an earlier session |
| SessionTasks.Device.CancelSessionTasks | custom_components/wallecube_ups_ble/wclib/devicebase.py:257-263 | no task survives |
| SessionTasks.Device.Disconnect | custom_components/wallecube_ups_ble/wclib/devicebase.py:205-212 | a device with a connection keeps no task; one without keeps everything as it was |
| SessionTasks.Device.Replay | custom_components/wallecube_ups_ble/wclib/devicebase.py:205-263 | over any sequence of connects, authentications, ended tasks and disconnects at most one task of a kind runs, and its field holds it |
| Codec.RoundTrip | custom_components/wallecube_ups_ble/wclib/model/base.py:56-63 | for every schema and every message that can be encoded, decoding gives it back if and only if each byte string has the length of its field |
| Codec.EncodesIff | custom_components/wallecube_ups_ble/wclib/model/base.py:63-66 | encoding fails exactly if a field is unset or out of the range of its format |
| Codec.EncodeDecode | custom_components/wallecube_ups_ble/wclib/model/base.py:56-66 | encoding the decoded message gives back the bytes of the fields |
| Codec.CutDecodesPrefix | custom_components/wallecube_ups_ble/wclib/model/base.py:72-78 | data cut at any length: the fields that fit decode as from the full data, all later ones are unset |
| Codec.FieldsFitting | custom_components/wallecube_ups_ble/wclib/model/base.py:72-78 | the countdown loop ends with the largest number of fields that fit |
| Codec.UnpackPack | custom_components/wallecube_ups_ble/wclib/model/base.py:68-70 | each format gives a value back exactly if it can represent it, two's complement included |
| Codec.OneByteFields | custom_components/wallecube_ups_ble/wclib/model/base.py:56-61 | B and b are the byte and its two's complement |
| Codec.TwoByteFields | custom_components/wallecube_ups_ble/wclib/model/base.py:68-70 | H and h have their low byte first, h in two's complement |
| Codec.LongFields | custom_components/wallecube_ups_ble/wclib/model/base.py:68-70 | I has its lowest byte first; ns is the bytes themselves |
| Codec.FormatsTake | custom_components/wallecube_ups_ble/wclib/model/base.py:63-66 | the range of each format, and the cut or zero-filled byte string |
| Codec.FieldAt | custom_components/wallecube_ups_ble/wclib/model/base.py:56-61 | every field that fits is decoded from its own bytes, right after those of the fields before it |
| Packets.DecodeEncodeConfig | custom_components/wallecube_ups_ble/wclib/packet.py:59-103 | a built message parses to the same type, token and payload if and only if its type is below 64, whatever follows it; from 128 on it is refused |
| Packets.ConfigLayout | custom_components/wallecube_ups_ble/wclib/packet.py:59-78 | a configuration message byte by byte: type with the bit 0x40 set and all others kept, length, nonce, token with its lowest byte first, payload; and exactly when building fails |
| Packets.EncodeDecodeConfig | custom_components/wallecube_ups_ble/wclib/packet.py:91-103 | parsing succeeds exactly on a consistent header, tag and length byte, and rebuilding the parsed message gives the beginning of the frame |
| Packets.ConfigArrives | custom_components/wallecube_ups_ble/wclib/connection.py:432-470 | for every 6-bit type, 32-bit token and payload up to 255 bytes: built, padded, encrypted, decrypted and parsed, the message reaches `config_parse` unchanged under the token of the session, and never under another |
| Packets.PassedIffBuilt | custom_components/wallecube_ups_ble/wclib/connection.py:432-470 | the frames that reach `config_parse` with a message are exactly the encryptions of that message of a 6-bit type, built with the token of the session and some nonce, and filled up to whole blocks |
| Packets.CutConfig | custom_components/wallecube_ups_ble/wclib/connection.py:437-470 | a configuration frame cut to any length is reported as truncated exactly if the length is not a multiple of 16, and arrives as it was sent if nothing was cut |
| Packets.CommandArrives | custom_components/wallecube_ups_ble/wclib/packet.py:11-27 | an encrypted command is taken by exactly the devices with its token, with its payload followed by zeros only |
| Packets.CommandLayout | custom_components/wallecube_ups_ble/wclib/packet.py:11-27 | a command byte by byte: magic, flags, token with its lowest byte first, nonce, payload; and exactly when building fails |
| Packets.CutTelemetry | custom_components/wallecube_ups_ble/wclib/packet.py:132-139 | a telemetry notification cut at any length keeps its event and every field that arrived whole; it is refused exactly below three bytes |
| Packets.TelemetrySizes | custom_components/wallecube_ups_ble/wclib/model/ups_telemetry.py:6-44 | the block has 38 bytes, and 9 fields fit a notification cut to 20 bytes |
| Packets.TelemetryFields | custom_components/wallecube_ups_ble/wclib/model/ups_telemetry.py:6-44 | which bytes of a notification each of the 17 fields is made of, and which two are signed |
| Packets.LongTelemetry | custom_components/wallecube_ups_ble/wclib/packet.py:132-139 | what follows 40 bytes is not looked at; the event is the second byte |
| Encryption.DecryptEncrypt | custom_components/wallecube_ups_ble/wclib/encryption.py:87-97 | decryption gives the plaintext followed by the zeros of its last block |
| Encryption.CandidatesComplete | custom_components/wallecube_ups_ble/wclib/encryption.py:52-74 | the hint comes first, no address twice, and the set is exactly the hint and all 48-bit addresses from three below to two above |
| Encryption.CandidatesInOrder | custom_components/wallecube_ups_ble/wclib/encryption.py:52-74 | after the hint the addresses come in the order 2 and 1 below, the address itself, 3 below, 1 and 2 above |
| Encryption.SpellsIff | custom_components/wallecube_ups_ble/wclib/encryption.py:71-74 | an address is written as six bytes, the most significant first |
| Encryption.CandidateBaseMacs | custom_components/wallecube_ups_ble/wclib/encryption.py:52-74 | the generator with its set of seen addresses yields exactly the specified list, in order |
| Encryption.FindSessionKey | custom_components/wallecube_ups_ble/wclib/connection.py:361-387 | adopts the first candidate in order whose decrypted sample is valid, and fails exactly if none is |
| Encryption.FirstFittingIff | custom_components/wallecube_ups_ble/wclib/connection.py:529-533 | the adopted candidate is the first under which the block starts with 0x51 and ends in four zero bytes, and there is none exactly if no candidate shows both |
| Encryption.GenuineIsAdopted | custom_components/wallecube_ups_ble/wclib/connection.py:361-387 | the info block a device sends under its own key, 0x51 and up to eleven bytes, is recognised: its address is adopted unless an earlier candidate shows both marks by chance |
| ChargingHold.ChargingState.OnFrame | custom_components/wallecube_ups_ble/wclib/devices/w150.py:365-380 | the counter and the state in place follow the debounce specification |
| ChargingHold.ChargingFollowsFrames | custom_components/wallecube_ups_ble/wclib/devices/w150.py:365-380 | after any frame that counts at once and any frames on input power, the state is the flag of the last 30 frames in a row that agreed (or the first frame's), and the counter is the length of the trailing run that differs, below 30 |
| ChargingHold.Session | custom_components/wallecube_ups_ble/wclib/devices/w150.py:365-385 | a session in place: from the first frame after authentication on, whatever was held before, state and counter are those the frames of this session give |
| ChargingHold.ChangesAreRare | custom_components/wallecube_ups_ble/wclib/devices/w150.py:376-380 | n frames on input power change the state at most n div 30 times |
| RuntimeEstimate.EstimateBounds | custom_components/wallecube_ups_ble/wclib/devices/w150.py:834-859 | the estimate lies between 0 and seconds div 60, and is 0 at or below the cut-off level, for each firmware convention |
| RuntimeEstimate.EstimateIsMonotone | custom_components/wallecube_ups_ble/wclib/devices/w150.py:834-859 | more seconds and a higher level never shorten the estimate |
| RuntimeEstimate.EstimateIs | custom_components/wallecube_ups_ble/wclib/devices/w150.py:838-859 | the whole estimate in whole numbers: when there is one, when it is 0, and between which products its minutes lie otherwise |
| RuntimeEstimate.EstimateIsExact | custom_components/wallecube_ups_ble/wclib/devices/w150.py:851-859 | above the cut-off the estimate is the whole minutes of the reported time in which the charge falls to the cut-off, as an inequality over integers |
| AdapterLimits.WrittenIsConsistent | custom_components/wallecube_ups_ble/wclib/model/settings.py:20-34 | for every requested rating and every accepted reading of the other one: all limits fit 16 bits, power good <= stop charge < adapter voltage, the charge limit is below the current, and the other rating is written back as read |
| AdapterLimits.RatingRoundTrip | custom_components/wallecube_ups_ble/wclib/devices/w150.py:821-822 | a rating of whole thousandths in range is written as requested |
| AdapterLimits.LimitsOfRating | custom_components/wallecube_ups_ble/wclib/model/settings.py:29-33 | the limits in whole numbers: seven tenths of the current, 965 and 958 thousandths of the voltage, rounded down |
| SettingsBlocks.AdapterBlock | custom_components/wallecube_ups_ble/wclib/model/settings.py:14-18 | whatever rating is set, its block can be encoded, has its five values in their order with the low byte first, and reads back as it is |
| SettingsBlocks.StandbyBlock | custom_components/wallecube_ups_ble/wclib/model/settings.py:37-47 | the sleep block: time, then threshold, and it reads back as it is |
| SettingsBlocks.WakeOnLanBlock | custom_components/wallecube_ups_ble/wclib/model/settings.py:50-59 | the trigger block: minimum outage, delay, minimum battery level, and it reads back as it is |
| SettingsBlocks.ScreenBlocks | custom_components/wallecube_ups_ble/wclib/devices/w150.py:662-678 | the screen block with and without the level: the shorter is the beginning of the longer, and its first four bytes are the timeout |
| AdapterLimits.Clamped | custom_components/wallecube_ups_ble/wclib/controls.py:84-90 | the value passed to a setter is in the limits of its control, and is the requested one if that is |
| PowerBoard.AdapterControl.WriteToPowerBoard | custom_components/wallecube_ups_ble/wclib/devices/w150.py:710-729 | at most two commands are sent, a second one exactly after a result whose fourth byte is not 0; it succeeds exactly if the last one sent has 0 there |
| PowerBoard.AdapterControl.WriteAdapter | custom_components/wallecube_ups_ble/wclib/devices/w150.py:615-637 | unknown values or a failed first read send nothing; it succeeds exactly if a sent command is confirmed and the last read succeeds, and then shows the new block; any other outcome leaves the rating read before on display, although the front panel has the new block exactly if the first command arrived |
| PowerBoard.ConfirmedShowsRating | custom_components/wallecube_ups_ble/wclib/devices/w150.py:615-637 | a confirmed change shows the requested rating in thousandths, within its limits, and the other one unchanged; so the block that was written is known when it is read |
| CommandResults.OwnResultIff | custom_components/wallecube_ups_ble/wclib/connection.py:289-323 | over all runs, the next confirmed command is certain to take its own result if and only if the device has answered all earlier commands and none of their results is under way |
| CommandResults.OwnUntilTimeout | custom_components/wallecube_ups_ble/wclib/connection.py:289-323 | until a command times out every command takes its own result |
| CommandResults.WrongResultIsTaken | custom_components/wallecube_ups_ble/wclib/connection.py:303-323 | if an earlier command is unanswered or its result is under way, there is a continuation in which the next command is completed by a result that is not its own |

## Left out

- AdapterLimits.WrittenIsConsistent: over exact numbers; the float expressions of the vendor app can truncate one lower where a product is a whole number (12 V gives 11495 mV instead of 11496).
- PowerBoard.AdapterControl.WriteAdapter: assumes that nobody else reads or writes the block while the write waits for its result, and that a result means that the front panel received the block.
- DeviceBase.Device.DataParse: takes the assignments of a frame as a list; which value each telemetry field maps to (scaling, rounding of the power, single flag bits, enumerations) is not part of it.
- BlockSettings.AdapterKeepsBoth: the setters send their block once; the second attempt after a refused one repeats the same block under the lock and is modelled in `PowerBoard`. Ratings are whole mV and mA; the other limits in the block are those of `AdapterLimits`.
- CommandResults.OwnResultIff: one characteristic; the subscription of a waiting command is not lost.
- The settings protocol is a state machine on values, because its subject is the interleaving of many tasks, not the update of one object; the register histories are immutable.
- The asyncio lock hands itself over in any order, which includes the first-come order of the library.
- Replies of the UPS that are too short to parse: they change nothing and wake nobody.
- The conversion of screen brightness, the battery health, the over-voltage flag and other facts of a single branch.
- Wi-Fi status, texts, addresses in dotted form.
- Home Assistant: config flow, coordinator, entities, repairs, diagnostics, translations.
- bleak, BlueZ and retries: only as the environment of the connection.
- AES in CBC mode (section 6.2 of NIST SP 800-38A) and MD5 themselves.
- Random nonces: they are parameters.
- Logging, masking of addresses, and the queues of diagnostics.
- Descriptors, class decorators and collection of annotations: a schema is a list of formats, the fields are a map by name.
