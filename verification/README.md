# A model of the event loop and its clients

The repository holds small Linux clients that follow D-Bus objects and HID
devices. Their common core is `EventLoop`, a single-threaded poll loop over raw
`EventSource` pointers whose additions, removals and deletions are deferred to
the top of the next iteration. This project models that loop, one complete
client on top of it (the Xbox controller), and the self-contained algorithms
around them, and proves what they are relied on for.

## How it is built

* **The loop as a transition system** (`LoopProtocol`). A label is one step of the
  loop thread, of a callback (`Alloc`, `Free`, `Add`, `Remove`, `Retire`), or of one
  of any number of calls of `stop()`, each in its three steps (store the code,
  lower the flag, write the eventfd). The heap maps addresses to object
  identities, and an allocation may reuse any address that is not live. `Enabled`
  is what code, kernel and allocator allow; `Contract` is what the header asks of
  callers. `Possible` runs use the first, `Lawful` runs both. The state keeps a log
  of calls on sources, insertions, hang-ups and destructions, so that
  properties of whole runs are properties of the log.
* **The loop as a class** (`EventLoops.EventLoop`). It has the fields of the C++
  class and its loops. `Run` is given a script (the outcome of each `poll()`, what
  the callbacks do, when other threads' steps fall) and is proved to be in exactly
  the state in which the transition system is after that script, so everything
  proved of runs is proved of the code.
* **What is promised of every run**: `LoopMemory` (no dangling pointer, aligned poll
  snapshot, no confusion by address reuse, every object destroyed once),
  `LoopStop` (no stop lost, the loop ends, the exit code), `LoopHangup` (no
  spinning), `LoopPass` (which sources are dispatched and when D-Bus is driven, said
  on the bits of `revents`). `EventQueues` says what one `apply_pending()` is.
* **The client**: `XboxControllers` (the callbacks, as a class over an `EventLoop`),
  `ControllerSteps` (what each of them does, said on the signal and the maps alone),
  `ControllerMaps` (the maps over any run of signals), `ControllerRuns` (from
  `main()` to the end of the process: every run of the client is lawful for the
  loop, hence every reader is polled and destroyed exactly once), `ClientMaps` (the
  maps over those runs), `ClientEnd` (after a `stop()` every such run can be brought
  to its end).
* **Around them**: `UniqueFds` (descriptor ownership), `Calibrations` (int32
  arithmetic), `JsonLines`, `JsonMeaning` and `Hexdumps` (printers with their readers), `Hidraws`
  (the input/hidraw join), `LogPaths` (the path scanner), `BlockWatchers` (reports of
  removable devices). `Seqs` and `Text` hold the sequences and strings they share.

## What the proofs show of the code

* `src/utils/event_loop.h:56-57` and `:89-90` call `stop()` safe from any thread. It
  is, provided that the eventfd could be created. The constructor only logs a
  failure (`src/utils/event_loop.cc:34-40`), and then a `stop()` that comes between
  the second test of `running_` and `poll()` leaves the loop asleep.
  `LoopStop.NoStopIsLostIffEventfd` proves that this is the exact condition.
* A gyroscope calibration with a small or a very large denominator makes the
  scaled value overflow int32 for some samples. `Calibrations.GyroFitsIff` gives the
  exact condition and `Calibrations.GyroRangeIsTight` two reports that fail it.
* The fallback of an accelerometer axis stores the axis code of the gyroscope axis
  (`src/bluez/ps5_dual_sense/input_reader.cc:281`): `Calibrations.AccelCodeIff`.
* The UPower clients can lose step with the devices in both directions.
  A client stays behind when a device's address is reported anew, or its modalias
  is no longer ours when the device goes (`ControllerMaps.ChangedDeviceLeavesItsClient`);
  `ControllerMaps.StaysContainedIff` is the exact condition for one step and
  `ControllerMaps.ClientsBelongToDevicesIff` for a run. A client is missing when the
  limit turns it away, or when a device goes while another one with the same
  address stays, as when one controller is paired on two adapters
  (`ControllerMaps.SharedAddressLosesItsClient`). `ControllerMaps.StaysExactIff` and
  `ControllerMaps.ClientsAreTheDevicesIff` are the exact conditions for clients and
  devices to be in exact correspondence. `ClientsBelongToDevices` and
  `ClientsAreTheDevices` say what holds as long as no signal changes the address or
  modalias of a device present.
* The JSON lines can be read back exactly when no member name holds `": "` or a
  newline or begins with a space and no string holds a newline
  (`JsonLines.TextRoundTripIffLegible`); with `": "` in a name no reader could
  (`JsonLines.ColonsAreAmbiguous`).

## Model

| member | source | states |
|---|---|---|
| EventQueues.SettleIsSetUpdate | src/utils/event_loop.cc:79-100 | one `apply_pending()` leaves no duplicate and is the set update (old + added) - removed, removal winning |
| EventQueues.SettleKeepsOrder | src/utils/event_loop.cc:79-94 | survivors keep their order and come first, newcomers follow in the order of first request |
| EventQueues.SettleIsDetermined | src/utils/event_loop.cc:79-94 | set update and order together leave only one possible list |
| EventLoops.EventLoop.constructor | src/utils/event_loop.cc:34-40 | a new loop is the initial state, with or without an eventfd |
| EventLoops.EventLoop.Wake | src/utils/event_loop.cc:42-50 | one more unit in the eventfd counter, unless there is no eventfd or the counter is full |
| EventLoops.EventLoop.Add | src/utils/event_loop.cc:52-55 | only queues the source and wakes the loop |
| EventLoops.EventLoop.Remove | src/utils/event_loop.cc:57-60 | only queues the removal and wakes the loop |
| EventLoops.EventLoop.Retire | src/utils/event_loop.cc:62-69 | queues removal and destruction together and wakes the loop |
| EventLoops.EventLoop.StopStep | src/utils/event_loop.cc:71-77 | the three separate effects of `stop()` |
| EventLoops.EventLoop.ApplyPending | src/utils/event_loop.cc:79-100 | the two in-place loops settle `sources_` as specified, hand back what is destroyed and empty all three queues |
| EventLoops.EventLoop.BuildPollSet | src/utils/event_loop.cc:113-131 | both layouts of the poll set, with the indices of its parts |
| EventLoops.EventLoop.PollOnce | src/utils/event_loop.cc:113-141 | the local poll set is slot for slot the machine's, and each outcome of `poll()` leads where it must |
| EventLoops.EventLoop.DrainWake | src/utils/event_loop.cc:143-149 | reading goes on until the counter is empty, whatever other threads write meanwhile |
| EventLoops.EventLoop.ServeBus | src/utils/event_loop.cc:143-166 | D-Bus is driven exactly if no descriptor has any bit set, or that of D-Bus or its eventFd has; an error leaves the loop |
| EventLoops.EventLoop.DispatchReady | src/utils/event_loop.cc:168-184 | whatever callbacks add, remove and retire, the sources dispatched are, in order, exactly those for which any bit is set |
| EventLoops.EventLoop.Run | src/utils/event_loop.cc:102-188 | for any possible record of poll results, callbacks and other threads, `run()` is in exactly the state that record leads to, and returns its code |
| LoopMemory.NoDanglingPointer | src/utils/event_loop.cc:57-100 | over any run that keeps the header's contract, every object on which the loop calls `fd()`, `events()` or `dispatch()` is live and is the very one a caller named, and every object is live when destroyed |
| LoopMemory.SnapshotStaysAligned | src/utils/event_loop.cc:113-184 | at every look into the poll results the index is in bounds and the slot was built from the very object `sources_[i]` names |
| LoopMemory.FreshAddressIsUnknown | src/utils/event_loop.cc:62-100 | a newly allocated object never has the address of anything in the four lists |
| LoopMemory.FreshAddReachesSources | src/utils/event_loop.cc:79-94 | a fresh source that is added and not removed is in `sources_` after the next `apply_pending()`, as that very object |
| LoopMemory.EveryObjectDiesOnce | src/utils/event_loop.h:77-82 | over any such run each object is destroyed at most once, and those not destroyed are exactly those on the heap |
| LoopMemory.ShapeHolds | src/utils/event_loop.cc:168-184 | without any promise of callers: no duplicates, and poll set, results and indices fit together |
| LoopStop.HeardHolds | src/utils/event_loop.cc:71-149 | in every interleaving the flag, the finished calls of `stop()` and the eventfd counter stay consistent |
| LoopStop.NoStopIsLostIffEventfd | src/utils/event_loop.cc:71-149 | a completed `stop()` never finds the loop able to sleep in `poll()`, if and only if the eventfd could be created |
| LoopStop.StopEndsTheLoop | src/utils/event_loop.cc:103-188 | once the flag is down it stays down and the loop thread takes a bounded number of further steps; `poll()` returns at most once more, and only if the second test of the flag was already passed |
| LoopStop.AStepIsThere | src/utils/event_loop.cc:102-188 | the loop thread always has a next step, and needs neither a timeout nor a signal for it unless `poll()` may block |
| LoopStop.CompletedStopFinishes | src/utils/event_loop.cc:71-188 | with an eventfd, after a completed `stop()` the loop thread alone can always go on to the end of the loop |
| LoopStop.RunReturnsTheCode | src/utils/event_loop.cc:71-188 | if all stops pass the same code, `run()` returns it, or 1 after an internal error |
| LoopStop.RunReturnsTheLastCode | src/utils/event_loop.cc:71-188 | whatever codes are passed, `run()` returns the one stored last, by `stop()` or as 1 by an internal error; without an error a `stop()` was heard |
| LoopHangup.HangupsDoNotSpin | src/utils/event_loop.cc:176-183 | in every possible run two dispatches of a source with POLLHUP or POLLERR have an insertion of it between them |
| LoopHangup.InsertionsIff | src/utils/event_loop.cc:84-94 | an insertion is a source in `sources_` after a round that was not in it before |
| LoopPass.BuildAsksEverySource | src/utils/event_loop.cc:128-131 | building the poll set asks every source once, in order |
| LoopPass.PassDispatchesWhatIsDue | src/utils/event_loop.cc:168-184 | over a completed pass, whatever callbacks and other threads do, `dispatch()` is called once, in order, on exactly the sources with any bit set, and every source that hung up is asked to leave |
| LoopPass.DispatchReturns | src/utils/event_loop.cc:176-183 | after a dispatch with POLLHUP or POLLERR the source is asked to leave and the loop is woken for it, otherwise nothing happens |
| LoopPass.AskedLeaves | src/utils/event_loop.cc:79-100 | what was asked to leave is out of `sources_` after the next `apply_pending()` |
| LoopPass.BusIsDrivenIffDue | src/utils/event_loop.cc:143-166 | in every run, between `poll()` and the first look at a source D-Bus is driven if and only if no descriptor has any bit set or one of its own has; an error leads out of the loop, otherwise the pass follows |
| XboxControllers.ConvertMacToUPowerPath | src/bluez/xbox_controller/xbox_controller.cc:251-261 | the two in-place passes give the lower-cased address with `o` for each colon |
| XboxControllers.PowerPathIsInjective | src/bluez/xbox_controller/xbox_controller.cc:251-261 | two addresses share a UPower path exactly when they agree ignoring case |
| XboxControllers.XboxController.constructor | src/bluez/xbox_controller/xbox_controller.cc:60-63 | empty maps, no reader, and exactly the nodes that the pairs of the Bluetooth scan give, or of the USB scan if it found no input |
| XboxControllers.XboxController.DeviceAdded | src/bluez/xbox_controller/xbox_controller.cc:97-186 | every exit of the device branch: maps, reader and the loop's queues afterwards |
| XboxControllers.XboxController.OnInterfacesAdded | src/bluez/xbox_controller/xbox_controller.cc:74-203 | the whole signal, with what it does to the loop as a run of the loop |
| XboxControllers.XboxController.OnInterfacesRemoved | src/bluez/xbox_controller/xbox_controller.cc:205-249 | the maps after a removal signal |
| XboxControllers.XboxController.UdevEvent | src/bluez/xbox_controller/xbox_controller.cc:41-59 | a hidraw removal retires the reader, any hidraw event rescans |
| XboxControllers.RescanAssociates | src/bluez/xbox_controller/xbox_controller.cc:55-57 | after a scan the nodes are exactly what the Bluetooth pairs give, or the USB ones if there was no Bluetooth input |
| ControllerSteps.PowerPathIsSpelled | src/bluez/xbox_controller/xbox_controller.cc:251-261 | the UPower path of an address, character by character |
| ControllerSteps.DeviceMakesReaderIff | src/bluez/xbox_controller/xbox_controller.cc:107-170 | a reader is made exactly for a new Xbox device below the limit that is connected, paired and trusted, whose key has a node, when there is no reader; it is kept and added exactly if it opens |
| ControllerSteps.DeviceOnMaps | src/bluez/xbox_controller/xbox_controller.cc:107-186 | which device is stored and which client added, and that nothing else changes |
| ControllerSteps.OtherEntries | src/bluez/xbox_controller/xbox_controller.cc:84-96 | an adapter or an input is stored below its limit, and nothing else changes |
| ControllerSteps.SignalMakesReaderIff | src/bluez/xbox_controller/xbox_controller.cc:79-170 | a signal allocates a reader exactly if one of its entries needs one in the state it meets |
| ControllerSteps.ClientAllocatesIff | src/bluez/xbox_controller/xbox_controller.cc:155-169 | after its start the client allocates only such readers, in any state and for any act |
| ControllerSteps.RemovalIsSpelled | src/bluez/xbox_controller/xbox_controller.cc:205-249 | a path named with an interface leaves the map of that interface, the client of a removed Xbox device goes, all else stays |
| ControllerSteps.UdevIsSpelled | src/bluez/xbox_controller/xbox_controller.cc:41-59 | every hidraw event renews the nodes, a removal retires the reader, all else stays |
| ControllerMaps.SignalIsInsertions | src/bluez/xbox_controller/xbox_controller.cc:79-202 | a signal is the insertion of its entries one by one |
| ControllerMaps.SignalIsDeletions | src/bluez/xbox_controller/xbox_controller.cc:208-248 | a removal signal is the deletion of its names one by one |
| ControllerMaps.LimitsHold | src/bluez/xbox_controller/xbox_controller.cc:85-201 | over any run of signals no map outgrows its limit |
| ControllerMaps.StaysContainedIff | src/bluez/xbox_controller/xbox_controller.cc:172-241 | a step leaves no client without a device if and only if it neither changes the path of a device whose client nobody else has nor removes one, with such a client, that is no longer ours |
| ControllerMaps.ClientsBelongToDevicesIff | src/bluez/xbox_controller/xbox_controller.cc:119-241 | throughout any run of signals every UPower client is that of a device present, if and only if no signal leaks a client |
| ControllerMaps.StaysExactIff | src/bluez/xbox_controller/xbox_controller.cc:172-241 | a step keeps clients and devices in exact correspondence if and only if the limit turns no client away, a removed device of ours shares its path with no other (one no longer ours with some other), and a changed path is one that others have, old and new |
| ControllerMaps.ClientsAreTheDevicesIff | src/bluez/xbox_controller/xbox_controller.cc:119-241 | throughout any run of signals the clients are exactly those of the devices, if and only if no signal spoils them |
| ControllerMaps.ChangedDeviceLeavesItsClient | src/bluez/xbox_controller/xbox_controller.cc:214-241 | a device whose address or modalias is reported anew before it goes leaves its client behind |
| ControllerMaps.SharedAddressLosesItsClient | src/bluez/xbox_controller/xbox_controller.cc:214-241 | of two devices with one address, the first to go takes the client of the other along |
| ControllerMaps.ClientsBelongToDevices | src/bluez/xbox_controller/xbox_controller.cc:119-241 | as long as no signal changes the address or modalias of a device present, every UPower client is that of a device present |
| ControllerMaps.ClientsAreTheDevices | src/bluez/xbox_controller/xbox_controller.cc:119-241 | as long as, besides, addresses are distinct ignoring case and the limit turns no client away, the clients are exactly those of the devices |
| ControllerRuns.ClientKeepsTheContract | src/bluez/xbox_controller/main.cc:19-47 | every run of the client, from `main()` to the end of the process, keeps the event loop's contract |
| ControllerRuns.ClientNeverDangles | src/bluez/xbox_controller/main.cc:25-38 | so no object its loop touches or destroys is a dead one |
| ControllerRuns.AtMostOneReader | src/bluez/xbox_controller/xbox_controller.cc:46-169 | at most one reader is not retired, and right after `apply_pending()` no other reader exists or is in `sources_` |
| ControllerRuns.EveryReaderDestroyedOnce | src/bluez/xbox_controller/main.cc:25-38 | when the process ends every object ever created, each reader included, has been destroyed exactly once |
| ControllerRuns.NewReaderReachesSources | src/bluez/xbox_controller/xbox_controller.cc:155-169 | a reader just made is, as that new object, in `sources_` after the next `apply_pending()` unless a udev removal retires it first |
| ClientMaps.ReachedIsPlay | src/bluez/xbox_controller/xbox_controller.cc:36-249 | the maps that any run of the client reaches are those of a sequence of map steps |
| ClientMaps.ClientMapsKeepTheirLimits | src/bluez/xbox_controller/xbox_controller.cc:85-201 | in every run of the client no map outgrows its limit |
| ClientMaps.ClientMapsAreContained | src/bluez/xbox_controller/xbox_controller.cc:119-241 | in a run of the client in which no step leaks a client, every UPower client is that of a device present |
| ClientMaps.ClientMapsAreExact | src/bluez/xbox_controller/xbox_controller.cc:119-241 | in a run of the client in which no step spoils them, the clients are exactly those of the devices |
| ClientEnd.StoppedClientEnds | src/bluez/xbox_controller/main.cc:25-38 | with an eventfd, every run of the client in which `run()` is under way and a `stop()` has completed can be carried on to the end of the process, with every object destroyed exactly once |
| UniqueFds.UniqueFd.Move | src/utils/unique_fd.h:48-51 | ownership and borrowing pass on, the source is left empty |
| UniqueFds.UniqueFd.Assign | src/utils/unique_fd.h:52-61 | closes what was owned, takes over, and does nothing on self-assignment |
| UniqueFds.UniqueFd.Reset | src/utils/unique_fd.h:81-87 | closes what was owned unless it is adopted again, never what was borrowed |
| UniqueFds.UniqueFd.Release | src/utils/unique_fd.h:72-77 | hands the descriptor out without closing it |
| UniqueFds.ConservedStep | src/utils/unique_fd.h:28-92 | each operation keeps the conservation law, and a descriptor it closes was its own to close |
| UniqueFds.DescriptorsAreConserved | src/utils/unique_fd.h:28-92 | over any disciplined sequence of operations: open = owned + released, one owner each, no close of a closed descriptor |
| UniqueFds.Process.Do | src/utils/unique_fd.h:28-92 | each operation, carried out on wrapper objects, has the specified effect on table and handles |
| UniqueFds.Process.Run | src/utils/unique_fd.h:28-92 | so any disciplined sequence of operations on wrapper objects conserves descriptors |
| UniqueFds.InputReader.constructor | src/bluez/ps5_dual_sense/input_reader.cc:34-118 | on each failure exit the descriptor opened is closed exactly once and nothing is kept; on success it is the reader's |
| UniqueFds.InputReader.OpenAndInit | src/bluez/xbox_controller/input_reader.cc:32-102 | the same for the method itself, return by return |
| Calibrations.MultFracIsExact | src/bluez/ps5_dual_sense/input_reader.cc:480-485 | `mult_frac` is x * n / d truncated, for all integers and all signs |
| Calibrations.DivTruncates | src/bluez/ps5_dual_sense/input_reader.cc:480-485 | the division meant is the one that truncates toward zero |
| Calibrations.AccelAxisMeans | src/bluez/ps5_dual_sense/input_reader.cc:240-291 | an accelerometer axis scales the swing from minus to plus to 16384 about its midpoint, the fallback 32767 to 32768 |
| Calibrations.GyroAxisMeans | src/bluez/ps5_dual_sense/input_reader.cc:216-274 | a gyroscope axis scales its two distances from the bias together to both speeds times 1024, the fallback 32767 to 2097152 |
| Calibrations.GetControllerCalibrationData | src/bluez/ps5_dual_sense/input_reader.cc:197-294 | all six axes filled in place with what the calibration means, or nothing touched when the report is missing or wrong |
| Calibrations.AccelAlwaysFits | src/bluez/ps5_dual_sense/input_reader.cc:240-291 | no accelerometer axis of any report has a zero denominator or overflows int32 in any intermediate, for any sample |
| Calibrations.AccelCodeIff | src/bluez/ps5_dual_sense/input_reader.cc:240-291 | an accelerometer axis has its own axis code exactly when it is calibrated, and that of the gyroscope axis otherwise |
| Calibrations.GyroFitsIff | src/bluez/ps5_dual_sense/input_reader.cc:480-525 | a gyroscope axis overflows for no sample if and only if quotient and remainder pass the guard |
| Calibrations.GyroFits | src/bluez/ps5_dual_sense/input_reader.cc:216-274 | positive denominator, numerator at most 134215680, and no overflow for denominators from 2048 to 65536, the fallback included |
| Calibrations.GyroRangeIsTight | src/bluez/ps5_dual_sense/input_reader.cc:216-238 | reports with denominators 2047 and 67584 whose samples overflow |
| JsonLines.ElementToLines | src/utils/utils.cc:494-529 | the recursive printer writes exactly the lines of the tree |
| JsonLines.SafeIntegersAreExact | src/utils/utils.cc:477-486 | whole numbers up to 2^53 are printed as their exact decimal value |
| JsonMeaning.ScalarMeansItself | src/utils/utils.cc:472-491 | the text of a scalar says it: words and strings exactly, safe integers exactly, other numbers to half a unit of the sixth decimal |
| JsonMeaning.PrintedTextShowsTheValue | src/utils/utils.cc:494-529 | what is printed for a legible container, read back, shows that very value: members under their names, elements under their indices, scalars by texts that mean them |
| JsonMeaning.PrintedScalarMeansIt | src/utils/utils.cc:526-528 | a lone scalar is one indented line that means it |
| JsonLines.LinesRoundTrip | src/utils/utils.cc:494-529 | the lines of any container rebuild it up to object/array labelling, one line a value |
| JsonLines.LineCountIffNoNewlines | src/utils/utils.cc:494-529 | the text has as many lines as there are values if and only if no member name and no string holds a newline |
| JsonLines.TextRoundTripIffLegible | src/utils/utils.cc:494-529 | reading the text line by line gives the container back if and only if no member name holds `": "` or a newline or begins with a space and no string holds a newline |
| JsonLines.ColonsAreAmbiguous | src/utils/utils.cc:501-507 | for every name with a colon and a space in it, another value prints the same text, so no reader can tell them apart |
| JsonLines.NewlinesComeFromStrings | src/utils/utils.cc:472-491 | the text of a scalar holds a newline exactly when it is a string that does |
| JsonLines.IndexLabelsArePlain | src/utils/utils.cc:512-522 | array labels never hold `": "`, a newline or a leading space |
| Hexdumps.Hexdump | src/bluez/hexdump.hpp:47-80 | the nested loops print the dump |
| Hexdumps.DumpRoundTrip | src/bluez/hexdump.hpp:47-80 | for every row size, decoding the cells after each `": "` gives back exactly the bytes |
| Hexdumps.RowsAreRegular | src/bluez/hexdump.hpp:52-54 | the text has ceil(length / row size) lines, and line n shows offset n times the row size, in at least six digits after `0x` |
| Hexdumps.RowsShowTheText | src/bluez/hexdump.hpp:64-75 | after its cells each line shows its bytes, itself if printable and a dot if not, if the column is asked for |
| Hidraws.CreateDeviceKey | src/bluez/hidraw.hpp:322-343 | the key: one quote off each end, upper case, `_` for each colon |
| Hidraws.KeyIsSpelled | src/bluez/hidraw.hpp:322-343 | the key of an address, character by character, with or without quotes |
| Hidraws.AddressFindsItsUniq | src/bluez/hidraw.hpp:322-343 | a quoted UNIQ and a BlueZ address have one key exactly when they agree ignoring case |
| Hidraws.SameParentIffCommonStem | src/bluez/hidraw.hpp:281-320 | two paths are paired exactly when both continue one stem below `/sys/devices/` |
| Hidraws.Hidraw.GetHidrawDevices | src/bluez/hidraw.hpp:207-247 | the nested loops leave exactly the keys of the pairs that lie under one device and have UNIQ and DEVNAME, each with the node of such a pair |
| Hidraws.JoinIsRelational | src/bluez/hidraw.hpp:225-242 | a key is present exactly when a matching pair has it, and its node is that of a matching pair |
| Hidraws.JoinAssociates | src/bluez/hidraw.hpp:225-242 | the same on paths and properties alone: a common stem below `/sys/devices/`, UNIQ and DEVNAME |
| Hidraws.OrderIndependentIffUnambiguous | src/bluez/hidraw.hpp:225-242 | the result is independent of hash-map order if and only if equal keys imply equal nodes |
| Hidraws.LookupFindsTheNodeIff | src/bluez/hidraw.hpp:58-64 | looking up an address finds the node whose UNIQ is that address in quotes, in any letter case and whatever the hash-map order, if and only if no other pair of that address says another node |
| LogPaths.IsLogFilePathSafe | src/utils/logging.h:76-121 | the cursor loop accepts exactly the empty path and paths without NUL, line break, leading dash and `..` component in the full split on `/` |
| LogPaths.RefusedIffBoundedDots | src/utils/logging.h:100-118 | that is: exactly when `..` never occurs with a slash or an end on each side |
| Text.SplitJoins | src/utils/logging.h:100-118 | the split meant above is the full one: it joins back to the path and leaves no slash in a component |
| BlockWatchers.BlockDeviceWatcher.CheckAndReportIfReady | src/udisks2/udisks2_monitor_daemon.cc:96-154 | reports exactly when not yet reported and ready |
| BlockWatchers.RemovableDeviceMonitor.OnInterfacesAdded | src/udisks2/udisks2_monitor_daemon.cc:196-254 | a watcher for each new block device on a removable drive, and nothing else |
| BlockWatchers.RemovableDeviceMonitor.OnInterfacesRemoved | src/udisks2/udisks2_monitor_daemon.cc:256-270 | the watcher goes when Block is among the names |
| BlockWatchers.ReportedOncePerInsertion | src/udisks2/udisks2_monitor_daemon.cc:79-154 | over any run of signals a report is of a ready block on a removable drive, and no report or removal lies between it and the creation of its watcher |
| BlockWatchers.RemovalBetweenReports | src/udisks2/udisks2_monitor_daemon.cc:196-270 | two reports for one path have a Block removal of that path between them |
| BlockWatchers.InsertionWatchesIff | src/udisks2/udisks2_monitor_daemon.cc:196-254 | which insertion is watched, and which is reported at once |
| BlockWatchers.ChangeReportsIff | src/udisks2/udisks2_monitor_daemon.cc:79-154 | which property change is reported |
| BlockWatchers.RemovalDropsIff | src/udisks2/udisks2_monitor_daemon.cc:256-270 | which removal drops the watcher |
| BlockWatchers.ReadyChangeIsReported | src/udisks2/udisks2_monitor_daemon.cc:79-154 | over any run of signals, a device watched and not yet reported is reported by the next relevant change that reads ready |

## Left out

- EventLoops.EventLoop.Run: system calls, D-Bus and callbacks are the script's labels; the C++ memory model beyond interleaving of the single loads, stores and writes is not modelled.
- EventLoops.EventLoop.StopStep: a write error other than EAGAIN is only logged by the code and is not modelled.
- LoopStop.NoStopIsLostIffEventfd: a `stop()` whose flag is lowered before `run()` raises it is overwritten by the code; it is in the runs, its late write of the eventfd too, and is not promised to be heard.
- LoopStop.CompletedStopFinishes: that a callback returns is up to the callback; fairness of the scheduler is not modelled.
- LoopMemory.NoDanglingPointer: a run has one call of `run()`; calling it again is outside the runs, and after a source has been destroyed `sources_` may hold dead pointers then.
- ControllerRuns.ClientKeepsTheContract: exceptions thrown out of constructors or callbacks are not modelled, nor are the `UPowerClient` and proxy objects behind the maps.
- XboxControllers.XboxController.DeviceAdded: the modalias is given parsed; the regular expression of `src/bluez/device1.h:68-77` is not modelled. What is read back from the device is what the signal carried, as its constructor stores that (`src/bluez/device1.h:53-62`).
- UniqueFds.InputReader.OpenAndInit: the feature reports read before success are best-effort in the code and do not affect the descriptor.
- Calibrations.GetControllerCalibrationData: after a failed call the denominators may still be zero; the arithmetic is promised for successful calls only.
- JsonLines.ElementToLines: numbers are exact reals, so the doubles a parser would round to, and negative zero, are outside the model.
- BlockWatchers.RemovableDeviceMonitor.OnInterfacesAdded: the callback and the drive properties passed to it are not modelled, nor is the mutex.
- Vector sizes are unbounded; overflow of `size_t` is not modelled.
- `DualSense` and `HoripadSteam` follow the same callbacks as the Xbox controller, the latter without UPower clients.
- `SignalSource` and `UdevMonitor` appear only as the sources owned by `main()`.
- The generated proxies, the printing and logging callbacks and the other clients forward calls and copy fields.
- HID report layouts, battery percentages and `formatSize` are field decoding and rounding.
