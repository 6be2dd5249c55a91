# NimBLE wrapper and gateway store: a verified model

This project models, in Dafny, the stateful parts of the vendored NimBLE C++ wrapper
and the gateway's store-and-forward queue, and proves what they keep over whole runs.
The build modelled is the default one: legacy advertising, host-task steps taken one at
a time, and user callbacks that do not call back into the library. Calls into the C
stack, clocks, allocation outcomes, file and key/value operations and the network are
parameters or events of the environment.

Where the source updates an object in place, there is a class with the same fields, and
each of its methods is proved to do exactly one step of an abstract state machine; the
theorems are about that machine and its runs.

| modules | what they model |
|---|---|
| `ScanSpec`, `ScanTheorems`, `ScanTimer`, `ScanJournal`, `ScanRuns`, `ScanReports`, `Scan` | the scanner: the intrusive list of devices waiting for a scan response (linked device objects on the heap), the one timer that serves them all, the result vector and the callbacks |
| `RingBuffer`, `StreamSpec`, `FlushSpec`, `Stream` | the byte stream: a wrapping array that refines a FIFO, overflow of the receive side, and what becomes of every accepted byte on the send side |
| `AdvFormat`, `AdvWriterSpec`, `AdvWriter` | building and editing advertising data (AD structures, section 11 of Vol 3, Part C of the Bluetooth Core Specification) |
| `AdvReaderSpec`, `AdvFields`, `AdvReader`, `AdvAgreement`, `AdvLists`, `AdvLimits`, `AdvExchange` | walking received advertising data, writer and reader together, and when a setter finds room |
| `GattSpec`, `GattTables`, `Gatt` | building the attribute tables, and giving handles to the nodes as the stack registers them |
| `ClientSpec`, `ClientTheorems`, `ClientProgress`, `Client` | the client's connection state machine: GAP events, the establishment timer, retries and a task blocked in `connect()` |
| `Lines`, `QueueSpec`, `Storage` | the remote queue and the history reader on the text of their files |
| `Cbc` | CBC chaining over an arbitrary block cipher |
| `BondSpec`, `BondMigration` | migrating bond records between their two layouts |
| `BleUuid`, `BleAddress`, `Base` | UUID and address conversions; small shared vocabulary |

## Where the code and its documentation differ

The model follows the code. Each point below is a lemma or a contract of the model.

- Stopping the scan timer does not take back an expiry that is already queued (a comment in
  `clearWaitingList` suggests it does), so the model keeps the queued expiry apart from the
  timer. With the timeout set to 0 an expiry left in the queue still reports the head, which is
  documented not to happen (`ScanTheorems.TimeoutOffExactly`).
- The duplicate path lists a scannable device even in a passive scan and leaves the timer alone;
  `ScanTimer.PassiveRepeatExactly` says when the timer is right afterwards, and the timing claims of whole
  runs are for active scans.
- The scan deadline is computed from a wrapped tick difference; `ScanTimer.DeadlineExact` says
  exactly when it is the one intended.
- The wait of `flush` is measured on a wrapped clock. On one that a pass cannot carry past the window
  between the timeout and the wrap, every flush ends (`FlushSpec.FlushEnds`). In general it does, whatever the
  stack answers, if and only if each wait on that clock comes to a pass that reads the timeout or more
  (`FlushSpec.FlushEndsExactly`, `FlushSpec.OverrunNeverEnds`).
- `removeServiceUUID` searches to the end of the payload. For a UUID its list does not hold it changes
  nothing if and only if the bytes behind the list do not spell it (`AdvWriterSpec.RemoveAbsentExactly`,
  `AdvWriterSpec.RemoveAbsentDeletesList`); the theorems on runs of setters are for runs without such edits
  (`LegalOp`). Adding to an empty list and removing again removes the list
  (`AdvWriterSpec.RemoveUndoesAdd`).
- `setName` cuts the length to eight bits before it takes the minimum: a name of 256 bytes comes back
  empty (`AdvAgreement.NameReadsBack`).
- Setting empty service data for a UUID removes the first service data of that width; that is the UUID's
  own if and only if it stands first (`AdvAgreement.EmptyDataExactly`, `AdvAgreement.EmptyDataRemovesAnother`).
- The reader does not see a last structure without data (`AdvReaderSpec.ReadsBack`). Of several shortened
  names it returns the last, and a complete one before any shortened one (`AdvReaderSpec.NameTheorem`); an
  empty last name hides (`AdvAgreement.NameExactly`).
- With an index past the last entry, `getPayloadByType` reads a location that was never written
  (`AdvReaderSpec.UnwrittenExactly`).
- `getServiceUUID` adjusts its index for lists split over several structures only where the later ones are
  no longer than those before (`AdvFields.EntryReadExactly`); of a longer one the first entries are never
  read, and `isAdvertisingService` denies them (`AdvFields.AnswersExactly`, `AdvLists.SecondListMissed`).
- `operator==` on UUIDs is not transitive between 16, 32 and 128 bits (`BleUuid.EqualNotTransitive`, `BleUuid.TransitiveExactly`), and
  `to16` drops the upper half of a 32-bit value (`BleUuid.NarrowExact`).
- `addService` of a new service on a started server does not record that a start is due
  (`Gatt.Server.AddNewService`), and a service whose UUID equals a built-in one's takes that one's
  handle (`GattTables.BuiltinTakes`).
- A `connect()` that fails while a connection is open marks the client disconnected and keeps its handle. An
  event of that connection may then release the next `connect()` with success before anything is connected:
  this can happen if and only if a handle is held when it begins (`ClientTheorems.MisledExactly`,
  `ClientTheorems.RefusedConnectMisleads`). A `connect()` whose wait times out while the link is up returns
  true with the callback still pending (`ClientTheorems.ExpireReturns`).
- A batch skips a line made of space only, while an acknowledgement counts it (`QueueSpec.AckExactly`); each
  acknowledgement adds a carriage return to the lines it keeps (`Lines.RawPrinted`). The queue never holds a
  line of space (`QueueSpec.AckClean`).
- A malformed line behind a row leaves a comma too many in the history (`QueueSpec.HistoryIsList`).
- The CBC decryption loop runs a block further than the plaintext, in both buffers (`Cbc.DecryptBlocks`).
- The migration's counters have 16 bits: a run whose conversions are a multiple of 65536 does not commit
  (`BondSpec.CommitExactly`).
- A `local_irk` blob of unknown size is overwritten by the migration, unlike the security records
  (`BondSpec.LocalIrkLost`).

## Model

| member | source | states |
|---|---|---|
| ScanRuns.WholeRun | firmware/libraries/NimBLE-Arduino/src/NimBLEScan.cpp:216-365 | after any run of events from power-up the waiting list is sound, is exactly what the journal of entries, moves and departures replays to, and in an active run the timer is right for its head |
| ScanRuns.RunKeeps | firmware/libraries/NimBLE-Arduino/src/NimBLEScan.cpp:216-365 | every event of a run keeps list, journal and counters in step, and in an active run the timer |
| ScanRuns.StaysBalance | firmware/libraries/NimBLE-Arduino/src/NimBLEScan.cpp:97-185 | in a journal that replays, each device has begun as many stays as it ended, plus the one going on |
| ScanRuns.StaysEndOnce | firmware/libraries/NimBLE-Arduino/src/NimBLEScan.cpp:286-364 | over any run each stay that began has ended once or is going on; an end by response, timeout or completion is followed at once by an `onResult` for the device, and in an active run nobody has one while waiting |
| ScanRuns.DrainReportsAll | firmware/libraries/NimBLE-Arduino/src/NimBLEScan.cpp:350-364 | the completion loop ends, and reports everybody still waiting, oldest first, and nobody else |
| ScanReports.ReportsExactly | firmware/libraries/NimBLE-Arduino/src/NimBLEScan.cpp:216-365 | over any run from power-up a device has exactly one `onResult` for each advertisement heard of it that needs no scan response (a passive scan, a type other than 0 and 2, or the response itself) and one for each of its stays that timed out or was there at the end of the scan, and no other |
| ScanReports.HeardReports | firmware/libraries/NimBLE-Arduino/src/NimBLEScan.cpp:310-340 | each advertisement heard of a known device, or of a new one there is room for, brings it exactly one `onResult` if the scan is passive, or its type is neither 0 nor 2, or this is the response; else none, and it waits |
| ScanReports.RunReports | firmware/libraries/NimBLE-Arduino/src/NimBLEScan.cpp:216-347 | the same for an advertisement anywhere in a run |
| ScanReports.NobodyForgotten | firmware/libraries/NimBLE-Arduino/src/NimBLEScan.cpp:216-365 | after any run whoever was discovered and not erased or cleared has had its `onResult` since, or waits; in an active run those who wait are exactly those still owed one |
| ScanReports.CompleteSettles | firmware/libraries/NimBLE-Arduino/src/NimBLEScan.cpp:350-364 | once the scan is complete nobody is owed anything |
| ScanReports.FirstHeard | firmware/libraries/NimBLE-Arduino/src/NimBLEScan.cpp:262-340 | a first advertisement in full: `onDiscovered`, then `onResult` or a place at the tail; kept unless results are not stored |
| ScanReports.RepeatHeard | firmware/libraries/NimBLE-Arduino/src/NimBLEScan.cpp:285-345 | a repeat in full: to the tail if scannable, `onDiscovered` again, `onResult` if nothing is waited for, dropped then if results are not stored |
| ScanReports.ResponseHeard | firmware/libraries/NimBLE-Arduino/src/NimBLEScan.cpp:286-345 | a scan response in full: the wait ends and `onResult` is the next entry, `onDiscovered` only if it was still due |
| ScanReports.Ignored | firmware/libraries/NimBLE-Arduino/src/NimBLEScan.cpp:222-276 | nothing happens when the scan is off, the advertiser is connected, or there is no room |
| ScanReports.FindIsFirst | firmware/libraries/NimBLE-Arduino/src/NimBLEScan.cpp:247-261 | an advertisement is about the first result with its address, and a new one exactly if none has it |
| ScanReports.ActiveDecides | firmware/libraries/NimBLE-Arduino/src/NimBLEScan.cpp:415-417 | after `setActiveScan` a scannable stranger waits or is reported at once, as it says |
| ScanReports.MaxDecides | firmware/libraries/NimBLE-Arduino/src/NimBLEScan.cpp:469-471 | after `setMaxResults` a stranger is heard of exactly if 0, 255 or a number above the results held was set |
| ScanReports.RadioDecides | firmware/libraries/NimBLE-Arduino/src/NimBLEScan.cpp:222-225 | a stranger is heard of exactly while the radio scans |
| ScanReports.TimeoutSet | firmware/libraries/NimBLE-Arduino/src/NimBLEScan.cpp:397-408 | `setScanResponseTimeout` sets the time the callback asks for, and leaves everybody in place |
| ScanReports.TimerEntries | firmware/libraries/NimBLE-Arduino/src/NimBLEScan.cpp:41-65 | the timer callback reports the head if the expiry was queued and the head has waited its time, and then does nothing else; otherwise it reports nobody |
| ScanReports.CompleteEntries | firmware/libraries/NimBLE-Arduino/src/NimBLEScan.cpp:350-364 | the end of the scan in full: all who wait, oldest first, each with `onResult`, then `onScanEnd`; results cleared if they are not stored and the radio is off |
| ScanReports.StopEntries | firmware/libraries/NimBLE-Arduino/src/NimBLEScan.cpp:619-640 | `stop` ends every wait without an `onResult`, or does nothing if the stack refuses |
| ScanReports.ClearEntries | firmware/libraries/NimBLE-Arduino/src/NimBLEScan.cpp:732-745 | `clearResults` forgets everybody, but not while scanning |
| ScanReports.ErasedEntries | firmware/libraries/NimBLE-Arduino/src/NimBLEScan.cpp:662-673 | erasing takes the device out of results and list, and nobody else |
| ScanReports.AddressEntries | firmware/libraries/NimBLE-Arduino/src/NimBLEScan.cpp:646-656 | erasing by address takes out the first result that has it, and does nothing if none has |
| ScanReports.ExpiryReports | firmware/libraries/NimBLE-Arduino/src/NimBLEScan.cpp:41-65 | if the timer runs out and its callback reads the clock within 2^32 ticks of the head's last advertisement, the head is reported and nobody else |
| ScanReports.WaitingHasTimer | firmware/libraries/NimBLE-Arduino/src/NimBLEScan.cpp:190-209 | in an active run in which the callout can be had, with a timeout, somebody who waits is never without a timer for the head or its queued event |
| ScanTheorems.CoreStep | firmware/libraries/NimBLE-Arduino/src/NimBLEScan.cpp:216-365 | each event keeps the list duplicate-free, inside the result vector, made of scannable devices only and sorted by time of last advertisement |
| ScanTheorems.CoreHeard | firmware/libraries/NimBLE-Arduino/src/NimBLEScan.cpp:284-346 | so does an advertisement, first or repeated, or a scan response |
| ScanTheorems.CoreErase | firmware/libraries/NimBLE-Arduino/src/NimBLEScan.cpp:646-673 | so does the erasing of a device, listed or not |
| ScanTheorems.CoreDrain | firmware/libraries/NimBLE-Arduino/src/NimBLEScan.cpp:350-364 | so does the completion loop |
| ScanTheorems.TimeoutOffExactly | firmware/libraries/NimBLE-Arduino/src/NimBLEScan.cpp:386-404 | with a timeout of 0, documented to leave only response and completion, the timer callback still takes and reports the head if and only if an expiry was already queued and somebody waits; otherwise the list stays |
| ScanTheorems.ListedWithout | firmware/libraries/NimBLE-Arduino/src/NimBLEScan.cpp:128-164 | taking a device out leaves the others in order |
| ScanTimer.TimerStep | firmware/libraries/NimBLE-Arduino/src/NimBLEScan.cpp:41-65 | with a timeout and an initialised timer, a non-empty list has its expiry queued or the timer armed for its head after every event, but for a repeat heard in passive mode that finds the list empty or holding its sender alone |
| ScanTimer.PassiveRepeatExactly | firmware/libraries/NimBLE-Arduino/src/NimBLEScan.cpp:297-302 | after a repeat heard in passive mode that finds the list empty or holding its sender alone, the timer is right if and only if it does not matter, or the device is dropped, or it was armed in this very tick for the full timeout |
| ScanTimer.TimerExactly | firmware/libraries/NimBLE-Arduino/src/NimBLEScan.cpp:41-65 | so from a right timer a step leads to a wrong one exactly by such a repeat without such an excuse |
| ScanTimer.DeadlineExact | firmware/libraries/NimBLE-Arduino/src/NimBLEScan.cpp:190-209 | the armed deadline is max(arming time + 1, head time + timeout) exactly when the wrapped age of the head reads right |
| ScanTimer.HeadDueFirst | firmware/libraries/NimBLE-Arduino/src/NimBLEScan.cpp:190-209 | nobody behind the head is due before the head, so one timer serves all |
| ScanTimer.NeverEarly | firmware/libraries/NimBLE-Arduino/src/NimBLEScan.cpp:41-65 | a timeout takes the head only, and the head has waited its full time |
| ScanJournal.FollowsStep | firmware/libraries/NimBLE-Arduino/src/NimBLEScan.cpp:216-365 | what an event adds to the journal replays the old list into the new one: nobody enters twice, leaves without being there, or is reported other than in the entry behind the departure |
| ScanJournal.FollowsHeard | firmware/libraries/NimBLE-Arduino/src/NimBLEScan.cpp:284-346 | the same for one advertisement |
| ScanJournal.FollowsComplete | firmware/libraries/NimBLE-Arduino/src/NimBLEScan.cpp:350-364 | the same for scan completion |
| ScanJournal.FollowsDrain | firmware/libraries/NimBLE-Arduino/src/NimBLEScan.cpp:350-364 | the same for its loop |
| ScanJournal.SentStep | firmware/libraries/NimBLE-Arduino/src/NimBLEScan.cpp:284-346 | in an active scan nobody who waits has had `onResult` |
| Scan.Scanner.AddWaitingDevice | firmware/libraries/NimBLE-Arduino/src/NimBLEScan.cpp:97-121 | the links spell out the old list with the device at its end, or the same list if it was in it |
| Scan.Scanner.Unlink | firmware/libraries/NimBLE-Arduino/src/NimBLEScan.cpp:128-160 | the links spell out the list without the device; tells whether there is a new head |
| Scan.Scanner.UnlinkInner | firmware/libraries/NimBLE-Arduino/src/NimBLEScan.cpp:145-155 | the walk ends at the predecessor, which takes over the link, and the tail if need be |
| Scan.Scanner.UnlinkAll | firmware/libraries/NimBLE-Arduino/src/NimBLEScan.cpp:176-183 | every link points at its own device again |
| Scan.Scanner.ArmForHead | firmware/libraries/NimBLE-Arduino/src/NimBLEScan.cpp:198-209 | arms for what is left of the head's time, at least one tick |
| Scan.Scanner.ResetWaitingTimer | firmware/libraries/NimBLE-Arduino/src/NimBLEScan.cpp:190-209 | stops, initialises or arms the timer as the abstract step does |
| Scan.Scanner.RemoveWaitingDevice | firmware/libraries/NimBLE-Arduino/src/NimBLEScan.cpp:128-164 | the abstract removal, timer included |
| Scan.Scanner.ClearWaitingList | firmware/libraries/NimBLE-Arduino/src/NimBLEScan.cpp:169-185 | the abstract clearing |
| Scan.Scanner.EraseDevice | firmware/libraries/NimBLE-Arduino/src/NimBLEScan.cpp:662-673 | the device leaves list, vector and store |
| Scan.Scanner.EraseByAddress | firmware/libraries/NimBLE-Arduino/src/NimBLEScan.cpp:646-656 | the first result with the address does |
| Scan.Scanner.FindDevice | firmware/libraries/NimBLE-Arduino/src/NimBLEScan.cpp:247-261 | the first result with the address, and none if there is none |
| Scan.Scanner.OnAdvertisement | firmware/libraries/NimBLE-Arduino/src/NimBLEScan.cpp:216-347 | a heard advertisement does exactly the abstract step on links, vector, counters, clock and timer; what that reports is `ScanReports.HeardReports` |
| Scan.Scanner.Repeated | firmware/libraries/NimBLE-Arduino/src/NimBLEScan.cpp:285-345 | so does a repeat, or a scan response, of a known device |
| Scan.Scanner.Refresh | firmware/libraries/NimBLE-Arduino/src/NimBLEScan.cpp:285-308 | a repeat restarts the device's clock and callbacks and moves it to the tail |
| Scan.Scanner.Deliver | firmware/libraries/NimBLE-Arduino/src/NimBLEScan.cpp:319-345 | does the abstract callbacks, list entry, and dropping of a reported device nobody stores, which `ScanReports.FirstHeard`, `RepeatHeard` and `ResponseHeard` spell out |
| Scan.Scanner.SrTimerCb | firmware/libraries/NimBLE-Arduino/src/NimBLEScan.cpp:41-65 | the timer callback does exactly the abstract step |
| Scan.Scanner.DrainList | firmware/libraries/NimBLE-Arduino/src/NimBLEScan.cpp:354-358 | the loop over the head ends and does exactly the abstract drain |
| Scan.Scanner.OnDiscoveryComplete | firmware/libraries/NimBLE-Arduino/src/NimBLEScan.cpp:350-364 | scan completion does exactly the abstract step |
| Scan.Scanner.Stop | firmware/libraries/NimBLE-Arduino/src/NimBLEScan.cpp:619-640 | so does `stop` |
| Scan.Scanner.ClearResults | firmware/libraries/NimBLE-Arduino/src/NimBLEScan.cpp:732-745 | so does `clearResults` |
| Scan.Scanner.SetScanResponseTimeout | firmware/libraries/NimBLE-Arduino/src/NimBLEScan.cpp:397-408 | so does a change of the timeout |
| Scan.Scanner.SetMaxResults | firmware/libraries/NimBLE-Arduino/src/NimBLEScan.cpp:469-471 | so do a change of the number of results stored |
| Scan.Scanner.SetActiveScan | firmware/libraries/NimBLE-Arduino/src/NimBLEScan.cpp:415-417 | of the scan mode |
| Scan.Scanner.SetDuplicateFilter | firmware/libraries/NimBLE-Arduino/src/NimBLEScan.cpp:429-431 | and of the duplicate filter |
| Scan.Scanner.OnHostDeinit | firmware/libraries/NimBLE-Arduino/src/NimBLEScan.cpp:685-692 | so does the host's shutdown |
| RingBuffer.ByteRingBuffer.Write | firmware/libraries/NimBLE-Arduino/src/NimBLEStream.cpp:98-119 | for capacity above 0, appends as much as fits to the abstract FIFO; the array wraps where it must |
| RingBuffer.ByteRingBuffer.CopyIn | firmware/libraries/NimBLE-Arduino/src/NimBLEStream.cpp:108-114 | both parts of the copy land in the slots behind the contents, and nothing else changes |
| RingBuffer.ByteRingBuffer.Append | firmware/libraries/NimBLE-Arduino/src/NimBLEStream.cpp:103-119 | the same behind the guard, the lock depth restored |
| RingBuffer.ByteRingBuffer.Peek | firmware/libraries/NimBLE-Arduino/src/NimBLEStream.cpp:156-175 | the oldest bytes, in order, and no change |
| RingBuffer.ByteRingBuffer.CopyOut | firmware/libraries/NimBLE-Arduino/src/NimBLEStream.cpp:137-143 | both parts of the copy, in order |
| RingBuffer.ByteRingBuffer.Read | firmware/libraries/NimBLE-Arduino/src/NimBLEStream.cpp:127-148 | the oldest bytes, which leave the FIFO |
| RingBuffer.ByteRingBuffer.Drop | firmware/libraries/NimBLE-Arduino/src/NimBLEStream.cpp:182-195 | drops as many of the oldest as there are |
| RingBuffer.ByteRingBuffer.FreeSize | firmware/libraries/NimBLE-Arduino/src/NimBLEStream.cpp:87-90 | capacity less contents |
| StreamSpec.RxKeepsNewest | firmware/libraries/NimBLE-Arduino/src/NimBLEStream.cpp:484-523 | under DROP_OLDER_DATA, whatever is read in between, the RX buffer is a suffix of all that was received, within its capacity |
| StreamSpec.RxIsLastBytes | firmware/libraries/NimBLE-Arduino/src/NimBLEStream.cpp:484-523 | with nobody reading it is the last min(capacity, total) bytes of old contents and data |
| StreamSpec.RxKeepsOldest | firmware/libraries/NimBLE-Arduino/src/NimBLEStream.cpp:496-522 | under DROP_NEW_DATA an oversized push leaves no trace and one that fits loses nothing: what was read, then what is buffered, is what fitted, in order |
| StreamSpec.WriteFills | firmware/libraries/NimBLE-Arduino/src/NimBLEStream.cpp:345-353 | a write accepts as many bytes as there is room for, all if they fit, and a server none while nobody is subscribed |
| StreamSpec.SendStops | firmware/libraries/NimBLE-Arduino/src/NimBLEStream.cpp:765-784 | if the stack takes k chunks and refuses the next, exactly their bytes leave the buffer as delivered; a retry is asked for if free buffers are down to 2 or, on a server, the code is 6 |
| StreamSpec.SendFinishes | firmware/libraries/NimBLE-Arduino/src/NimBLEStream.cpp:765-784 | if it takes as many as there are, all is delivered and the buffer empty |
| StreamSpec.SendAllExactly | firmware/libraries/NimBLE-Arduino/src/NimBLEStream.cpp:753-785 | so for one `send`, with chunks of min(MTU - 3, 255) bytes; without a peer or with an MTU below 23 nothing happens |
| StreamSpec.SendDelivers | firmware/libraries/NimBLE-Arduino/src/NimBLEStream.cpp:753-785 | with a peer, an MTU of 23 or more and a stack that takes everything, one `send` delivers all that is buffered and asks for no retry |
| StreamSpec.SendConserves | firmware/libraries/NimBLE-Arduino/src/NimBLEStream.cpp:753-785 | the chunk loop of `send` keeps accepted bytes = bytes with a fate, then bytes buffered, in order, for every outcome of every chunk |
| StreamSpec.SendAllConserves | firmware/libraries/NimBLE-Arduino/src/NimBLEStream.cpp:753-785 | so does `send`, and it loses nothing |
| StreamSpec.NoneLost | firmware/libraries/NimBLE-Arduino/src/NimBLEStream.cpp:753-785 | if no fate is a loss, the bytes handed to the stack are all the bytes with a fate |
| FlushSpec.PassKeeps | firmware/libraries/NimBLE-Arduino/src/NimBLEStream.cpp:716-743 | one pass of the loop of `flush` loses nothing and keeps the account of every accepted byte |
| FlushSpec.GivesUpExactly | firmware/libraries/NimBLE-Arduino/src/NimBLEStream.cpp:716-743 | a pass gives up exactly if it sends nothing and the stack is not just busy, or no time is given, or it is over |
| FlushSpec.LastKeeps | firmware/libraries/NimBLE-Arduino/src/NimBLEStream.cpp:716-743 | up to the end of the loop nothing is lost |
| FlushSpec.FlushDelivers | firmware/libraries/NimBLE-Arduino/src/NimBLEStream.cpp:716-724 | with such a stack the first pass of `flush` delivers all of it |
| FlushSpec.WaitRestarts | firmware/libraries/NimBLE-Arduino/src/NimBLEStream.cpp:725-735 | a pass that sends something, but not all, restarts the wait; one that sends nothing and goes on has slept and has not |
| FlushSpec.EndsOnce | firmware/libraries/NimBLE-Arduino/src/NimBLEStream.cpp:716-743 | a flush has one last pass |
| FlushSpec.EndsFrom | firmware/libraries/NimBLE-Arduino/src/NimBLEStream.cpp:716-735 | bytes buffered, then what is left of the wait, go down with every pass, whatever the stack answers |
| FlushSpec.WaitShrinks | firmware/libraries/NimBLE-Arduino/src/NimBLEStream.cpp:729-735 | on a steady clock a pass that sleeps has less left to wait |
| FlushSpec.FlushEnds | firmware/libraries/NimBLE-Arduino/src/NimBLEStream.cpp:707-743 | so on a steady clock, or without a timeout, every flush ends |
| FlushSpec.EndsByClock | firmware/libraries/NimBLE-Arduino/src/NimBLEStream.cpp:716-743 | on a clock on which each wait runs out, bytes buffered, then passes to a late reading, go down with every pass |
| FlushSpec.FlushEndsExactly | firmware/libraries/NimBLE-Arduino/src/NimBLEStream.cpp:707-743 | a flush with a timeout ends for every stack on a clock if and only if, wherever a wait begins on it, some pass reads the timeout or more |
| FlushSpec.BusyExactly | firmware/libraries/NimBLE-Arduino/src/NimBLEStream.cpp:716-735 | with a stack that stays busy pass n is reached if and only if each pass before it read a wrapped time below the timeout |
| FlushSpec.BusyEnds | firmware/libraries/NimBLE-Arduino/src/NimBLEStream.cpp:716-735 | so that flush ends if and only if some pass reads the timeout or more |
| FlushSpec.OverrunNeverEnds | firmware/libraries/NimBLE-Arduino/src/NimBLEStream.cpp:716-735 | and never, if every sleep overruns to a full turn of the tick counter |
| FlushSpec.StepConserves | firmware/libraries/NimBLE-Arduino/src/NimBLEStream.cpp:345-397 | no write, send or flush loses a byte, but for a flush that gives up, which loses what it drops; each keeps the account |
| FlushSpec.TxConservation | firmware/libraries/NimBLE-Arduino/src/NimBLEStream.cpp:1000-1032 | over any run of writes, sends and flushes, server or client: every accepted byte is buffered or met one fate, in order; the bytes lost are those the flushes that gave up dropped; if none did, what the stack was handed followed by what is buffered is what `write` accepted |
| Stream.BleStream.PushRx | firmware/libraries/NimBLE-Arduino/src/NimBLEStream.cpp:484-523 | the three overflow branches come to one formula: all of it, nothing, or the newest that fit; and what is returned |
| Stream.BleStream.StoreOver | firmware/libraries/NimBLE-Arduino/src/NimBLEStream.cpp:500-522 | the overflow branches under the recursive guard |
| Stream.BleStream.Write | firmware/libraries/NimBLE-Arduino/src/NimBLEStream.cpp:345-353 | accepts what fits and says how much |
| Stream.BleStream.Send | firmware/libraries/NimBLE-Arduino/src/NimBLEStream.cpp:753-785 | does exactly the abstract send; the bytes the stack took, recorded where it is called, are those booked as delivered |
| Stream.BleStream.SendOne | firmware/libraries/NimBLE-Arduino/src/NimBLEStream.cpp:768-784 | one chunk: handed over, and then out of the buffer exactly if the stack took it |
| Stream.BleStream.FlushPass | firmware/libraries/NimBLE-Arduino/src/NimBLEStream.cpp:716-743 | does exactly one pass, on buffer and clock |
| Stream.BleStream.FlushLoop | firmware/libraries/NimBLE-Arduino/src/NimBLEStream.cpp:716-743 | does exactly the passes up to the last |
| Stream.BleStream.Flush | firmware/libraries/NimBLE-Arduino/src/NimBLEStream.cpp:707-743 | whenever the loop ends at all: does exactly the abstract flush, with TX empty after it, RX cleared exactly if it gave up, and the clock where the passes left it |
| Stream.BleStream.Discard | firmware/libraries/NimBLE-Arduino/src/NimBLEStream.cpp:737-742 | the give-up path |
| Stream.BleStream.Notify | firmware/libraries/NimBLE-Arduino/src/NimBLEStream.cpp:771-771 | the call into the stack: what it takes is recorded there |
| Stream.BleStream.PerformAll | firmware/libraries/NimBLE-Arduino/src/NimBLEStream.cpp:345-397 | any sequence of writes, sends and flushes on the object, on a steady clock, is a run of the abstract stream; the bytes the stack took are those booked as delivered, and if no flush gave up, what was accepted is what it took, then what is buffered |
| AdvFormat.EncodeInjective | firmware/libraries/NimBLE-Arduino/src/NimBLEAdvertisementData.cpp:39-47 | the bytes determine the structures |
| AdvFormat.EncodeConcat | firmware/libraries/NimBLE-Arduino/src/NimBLEAdvertisementData.cpp:39-47 | laying structures end to end is concatenation |
| AdvFormat.EncodeAt | firmware/libraries/NimBLE-Arduino/src/NimBLEAdvertisementData.cpp:524-534 | each structure stands at its offset, length byte, type and value |
| AdvWriterSpec.ApplySound | firmware/libraries/NimBLE-Arduino/src/NimBLEAdvertisementData.cpp:39-551 | every setter, removals that would edit bytes behind their list and wrapped lengths apart (`LegalOp`), leaves well-formed structures, fixed fields of their size, lists of whole UUIDs, of at most 31 bytes in all |
| AdvWriterSpec.RefusalKeeps | firmware/libraries/NimBLE-Arduino/src/NimBLEAdvertisementData.cpp:39-551 | a setter that returns false has changed nothing |
| AdvWriterSpec.PackedAligned | firmware/libraries/NimBLE-Arduino/src/NimBLEAdvertisementData.cpp:412-450 | a packed list holds whole UUIDs |
| AdvWriterSpec.RemoveUndoesAdd | firmware/libraries/NimBLE-Arduino/src/NimBLEAdvertisementData.cpp:146-245 | adding and then removing a UUID restores the structures exactly if there was no list, or a list with entries in which the UUID was absent or last |
| AdvWriterSpec.UndoCreated | firmware/libraries/NimBLE-Arduino/src/NimBLEAdvertisementData.cpp:146-245 | in particular whenever the list had to be created |
| AdvWriterSpec.UndoExtended | firmware/libraries/NimBLE-Arduino/src/NimBLEAdvertisementData.cpp:146-245 | and for a list that existed, exactly under that condition |
| AdvWriterSpec.AddedShape | firmware/libraries/NimBLE-Arduino/src/NimBLEAdvertisementData.cpp:146-187 | an added UUID goes to the end of the first complete list of its width, or into a new structure at the end; all others stay in place and order |
| AdvWriterSpec.EditIsCut | firmware/libraries/NimBLE-Arduino/src/NimBLEAdvertisementData.cpp:238-243 | the byte edit at a UUID inside its list is the removal from that list, or of the structure with its last UUID |
| AdvWriterSpec.CutEdits | firmware/libraries/NimBLE-Arduino/src/NimBLEAdvertisementData.cpp:226-245 | so it is for the UUID the search looks for |
| AdvWriterSpec.HitEdits | firmware/libraries/NimBLE-Arduino/src/NimBLEAdvertisementData.cpp:226-245 | for a listed UUID the whole search and edit come to the edit at its place |
| AdvWriterSpec.ScanHit | firmware/libraries/NimBLE-Arduino/src/NimBLEAdvertisementData.cpp:226-232 | the search over the payload finds a listed UUID in its list |
| AdvWriterSpec.ScanMiss | firmware/libraries/NimBLE-Arduino/src/NimBLEAdvertisementData.cpp:226-232 | an unlisted one is searched for in the bytes behind the list |
| AdvWriterSpec.RemoveAbsentExactly | firmware/libraries/NimBLE-Arduino/src/NimBLEAdvertisementData.cpp:226-245 | removing a UUID its list does not hold leaves the payload alone if and only if nothing behind the list spells it |
| AdvWriterSpec.RemoveAbsentDeletesList | firmware/libraries/NimBLE-Arduino/src/NimBLEAdvertisementData.cpp:226-245 | a payload where something does: removing an absent UUID deletes the list |
| AdvWriterSpec.ScanDefinedAt | firmware/libraries/NimBLE-Arduino/src/NimBLEAdvertisementData.cpp:226-232 | the search for a listed UUID compares inside the payload only |
| AdvWriter.AdvertisementData.AddData | firmware/libraries/NimBLE-Arduino/src/NimBLEAdvertisementData.cpp:39-47 | appends the structure, or refuses if the payload would pass 31 bytes; when each setter succeeds is `AdvLimits.SucceedsExactly` |
| AdvWriter.AdvertisementData.GetDataLocation | firmware/libraries/NimBLE-Arduino/src/NimBLEAdvertisementData.cpp:524-534 | the offset of the first structure of the type, or -1 |
| AdvWriter.AdvertisementData.RemoveData | firmware/libraries/NimBLE-Arduino/src/NimBLEAdvertisementData.cpp:540-551 | erases the first structure of the type, or refuses |
| AdvWriter.AdvertisementData.SetAppearance | firmware/libraries/NimBLE-Arduino/src/NimBLEAdvertisementData.cpp:63-74 | two bytes, low first; zero removes |
| AdvWriter.AdvertisementData.SetFlags | firmware/libraries/NimBLE-Arduino/src/NimBLEAdvertisementData.cpp:84-100 | overwrites, appends or removes; the BR/EDR bit is always set |
| AdvWriter.AdvertisementData.AddTxPower | firmware/libraries/NimBLE-Arduino/src/NimBLEAdvertisementData.cpp:106-116 | one byte |
| AdvWriter.AdvertisementData.SetPreferredParams | firmware/libraries/NimBLE-Arduino/src/NimBLEAdvertisementData.cpp:125-140 | four bytes, clamped and ordered |
| AdvWriter.AdvertisementData.AddServiceUUID | firmware/libraries/NimBLE-Arduino/src/NimBLEAdvertisementData.cpp:146-187 | the bytes after insertion and patched length spell the list with the UUID added |
| AdvWriter.AdvertisementData.RemoveServiceUUID | firmware/libraries/NimBLE-Arduino/src/NimBLEAdvertisementData.cpp:203-245 | for a listed UUID the bytes spell the structures without it, and for one that is neither listed nor spelt behind its list they stay; otherwise they are what the search and edit make of them |
| AdvWriter.AdvertisementData.CutOut | firmware/libraries/NimBLE-Arduino/src/NimBLEAdvertisementData.cpp:226-245 | the search and the edit, on the bytes |
| AdvWriter.AdvertisementData.SetManufacturerData | firmware/libraries/NimBLE-Arduino/src/NimBLEAdvertisementData.cpp:269-284 | up to 29 bytes |
| AdvWriter.AdvertisementData.SetURI | firmware/libraries/NimBLE-Arduino/src/NimBLEAdvertisementData.cpp:305-317 | up to 29 bytes |
| AdvWriter.AdvertisementData.SetName | firmware/libraries/NimBLE-Arduino/src/NimBLEAdvertisementData.cpp:327-339 | the name or its first bytes, complete only if all of it is there |
| AdvWriter.AdvertisementData.SetServices | firmware/libraries/NimBLE-Arduino/src/NimBLEAdvertisementData.cpp:412-450 | the UUIDs of the width that fit |
| AdvWriter.AdvertisementData.PackServices | firmware/libraries/NimBLE-Arduino/src/NimBLEAdvertisementData.cpp:417-430 | the packing loop |
| AdvWriter.AdvertisementData.SetServiceData | firmware/libraries/NimBLE-Arduino/src/NimBLEAdvertisementData.cpp:460-495 | UUID and data; no data removes |
| AdvWriter.LegalExactly | firmware/libraries/NimBLE-Arduino/src/NimBLEAdvertisementData.cpp:203-245 | a removal whose search stays inside the payload leaves the bytes of the removal on structures if and only if the UUID is listed or not spelt behind its list |
| AdvWriter.Perform | firmware/libraries/NimBLE-Arduino/src/NimBLEAdvertisementData.cpp:39-551 | any one legal setter does on the bytes exactly what it does on the structures |
| AdvWriter.PerformAll | firmware/libraries/NimBLE-Arduino/src/NimBLEAdvertisementData.cpp:39-551 | so any legal run of setters leaves the bytes of what the run on structures leaves, and returns what it returns |
| AdvWriter.AddThenRemove | firmware/libraries/NimBLE-Arduino/src/NimBLEAdvertisementData.cpp:146-245 | the two calls one after the other restore the payload byte for byte if and only if there was no list, or a list with entries in which the UUID was absent or last |
| AdvReaderSpec.FieldsInside | firmware/libraries/NimBLE-Arduino/src/NimBLEAdvertisedDevice.cpp:645-706 | every structure the walk meets lies inside the payload |
| AdvReaderSpec.FoundInside | firmware/libraries/NimBLE-Arduino/src/NimBLEAdvertisedDevice.cpp:645-706 | a location it leaves is the start of such a structure |
| AdvReaderSpec.FindIsHolder | firmware/libraries/NimBLE-Arduino/src/NimBLEAdvertisedDevice.cpp:645-706 | for any type but names the search lands on the structure holding the entry asked for, with the entries up to its end counted, and past the last one it counts them all and leaves no location |
| AdvReaderSpec.NameTheorem | firmware/libraries/NimBLE-Arduino/src/NimBLEAdvertisedDevice.cpp:645-706 | on any payload of up to 255 bytes a name lookup lands on the first complete name of the parsable part, else on its last shortened one |
| AdvReaderSpec.UnwrittenExactly | firmware/libraries/NimBLE-Arduino/src/NimBLEAdvertisedDevice.cpp:645-706 | a caller that looks at the count alone reads a location never written exactly when there are entries but none with its index |
| AdvReaderSpec.FirstWritten | firmware/libraries/NimBLE-Arduino/src/NimBLEAdvertisedDevice.cpp:645-706 | for the first entry the location is always there when it is used |
| AdvReaderSpec.TallyIsTotal | firmware/libraries/NimBLE-Arduino/src/NimBLEAdvertisedDevice.cpp:645-706 | without a place for the location it counts every entry |
| AdvReaderSpec.ReadsBack | firmware/libraries/NimBLE-Arduino/src/NimBLEAdvertisedDevice.cpp:645-706 | the walk over an encoded list meets its structures, but for a last one without data |
| AdvFields.NoSooner | firmware/libraries/NimBLE-Arduino/src/NimBLEAdvertisedDevice.cpp:327-346 | the data read for a UUID is that of the first entry that begins with it, and none if none does |
| AdvFields.Lookup | firmware/libraries/NimBLE-Arduino/src/NimBLEAdvertisedDevice.cpp:645-706 | entry i of a type that counts one entry each is the i-th value of that type |
| AdvFields.ByTypeValue | firmware/libraries/NimBLE-Arduino/src/NimBLEAdvertisedDevice.cpp:228-238 | `getPayloadByType` is defined exactly for an absent type or an index in range, and gives that value |
| AdvFields.NameValue | firmware/libraries/NimBLE-Arduino/src/NimBLEAdvertisedDevice.cpp:244-246 | `getName` gives the first complete name, else the last shortened one |
| AdvFields.DataHit | firmware/libraries/NimBLE-Arduino/src/NimBLEAdvertisedDevice.cpp:327-346 | the first match in the numbering of service data is the first match among the values of its width |
| AdvFields.DataMiss | firmware/libraries/NimBLE-Arduino/src/NimBLEAdvertisedDevice.cpp:327-346 | and no match means there is none |
| AdvFields.EntryReadExactly | firmware/libraries/NimBLE-Arduino/src/NimBLEAdvertisedDevice.cpp:441-454 | the index adjustment is exact for a first list and for a later one no longer than those before it; otherwise the entry read is too far on |
| AdvFields.UuidAtIsListed | firmware/libraries/NimBLE-Arduino/src/NimBLEAdvertisedDevice.cpp:417-457 | on a tidy payload `getServiceUUID` runs through the lists' UUIDs in order |
| AdvFields.IndexReads | firmware/libraries/NimBLE-Arduino/src/NimBLEAdvertisedDevice.cpp:417-457 | within a type each index reads an entry that is not lost |
| AdvFields.EntryReads | firmware/libraries/NimBLE-Arduino/src/NimBLEAdvertisedDevice.cpp:417-457 | and each entry that is not lost is read for some index |
| AdvFields.AnswersExactly | firmware/libraries/NimBLE-Arduino/src/NimBLEAdvertisedDevice.cpp:479-488 | on any payload of whole UUIDs `isAdvertisingService` says yes if and only if the UUID equals an entry not lost: a list with n entries behind b others of its type, b < n, loses its first min(b, n - b) |
| AdvFields.AdvertisedExactly | firmware/libraries/NimBLE-Arduino/src/NimBLEAdvertisedDevice.cpp:479-488 | while the truth is that it equals an entry, lost or not |
| AdvFields.AnswersTidy | firmware/libraries/NimBLE-Arduino/src/NimBLEAdvertisedDevice.cpp:479-488 | so on a tidy payload, where none is lost, it says exactly whether some UUID of some list equals the one asked for |
| AdvFields.LongerSecondListSkips | firmware/libraries/NimBLE-Arduino/src/NimBLEAdvertisedDevice.cpp:441-454 | off it, the entries read from two lists of which the second is longer |
| AdvFields.UuidTotalCounts | firmware/libraries/NimBLE-Arduino/src/NimBLEAdvertisedDevice.cpp:463-472 | the count is the number of listed UUIDs |
| AdvReader.AdvertisedDevice.Update | firmware/libraries/NimBLE-Arduino/src/NimBLEAdvertisedDevice.cpp:62-87 | a scan response appends, anything else replaces |
| AdvReader.AdvertisedDevice.FindAdvField | firmware/libraries/NimBLE-Arduino/src/NimBLEAdvertisedDevice.cpp:645-706 | ends on any payload, reads inside it only, and counts and locates as the abstract walk |
| AdvReader.AdvertisedDevice.GetPayloadByType | firmware/libraries/NimBLE-Arduino/src/NimBLEAdvertisedDevice.cpp:228-238 | the value at the location found |
| AdvReader.AdvertisedDevice.GetName | firmware/libraries/NimBLE-Arduino/src/NimBLEAdvertisedDevice.cpp:244-246 | first complete, else last shortened |
| AdvReader.AdvertisedDevice.GetManufacturerData | firmware/libraries/NimBLE-Arduino/src/NimBLEAdvertisedDevice.cpp:202-204 | the first value |
| AdvReader.AdvertisedDevice.GetURI | firmware/libraries/NimBLE-Arduino/src/NimBLEAdvertisedDevice.cpp:218-220 | the first value |
| AdvReader.AdvertisedDevice.GetAppearance | firmware/libraries/NimBLE-Arduino/src/NimBLEAdvertisedDevice.cpp:137-147 | the first value if it has two bytes, else 0 |
| AdvReader.AdvertisedDevice.FindServiceData | firmware/libraries/NimBLE-Arduino/src/NimBLEAdvertisedDevice.cpp:373-398 | the entry with the index across the three types, or none |
| AdvReader.AdvertisedDevice.GetServiceData | firmware/libraries/NimBLE-Arduino/src/NimBLEAdvertisedDevice.cpp:327-346 | the data behind the first UUID that equals the one asked for, or nothing |
| AdvReader.AdvertisedDevice.GetServiceUUID | firmware/libraries/NimBLE-Arduino/src/NimBLEAdvertisedDevice.cpp:417-457 | the entry read for the index, whatever the payload |
| AdvReader.AdvertisedDevice.EntryOf | firmware/libraries/NimBLE-Arduino/src/NimBLEAdvertisedDevice.cpp:441-454 | the adjusted entry of the list found |
| AdvReader.AdvertisedDevice.GetServiceUUIDCount | firmware/libraries/NimBLE-Arduino/src/NimBLEAdvertisedDevice.cpp:463-472 | entries of all six list types |
| AdvReader.AdvertisedDevice.IsAdvertisingService | firmware/libraries/NimBLE-Arduino/src/NimBLEAdvertisedDevice.cpp:479-488 | on any payload of up to 255 bytes, whether an entry the numbering reads equals the UUID; with lists of whole UUIDs, exactly whether one that is not lost does; on a tidy one, whether any does |
| AdvAgreement.Queued | firmware/libraries/NimBLE-Arduino/src/NimBLEAdvertisementData.cpp:39-551 | the values of a type are a queue: each legal setter appends to that of its own type, each removal takes the head, and no other queue changes |
| AdvAgreement.RunQueues | firmware/libraries/NimBLE-Arduino/src/NimBLEAdvertisementData.cpp:39-551 | so over any legal run of setters, refused ones included |
| AdvAgreement.ReadValues | firmware/libraries/NimBLE-Arduino/src/NimBLEAdvertisedDevice.cpp:645-706 | the reader's first value of a type is the writer's |
| AdvAgreement.Agreement | firmware/libraries/NimBLE-Arduino/src/NimBLEAdvertisedDevice.cpp:228-238 | after any legal run of setters the getter gives the head of the queue of values set and not removed, from a payload of at most 31 bytes |
| AdvAgreement.FirstSetStays | firmware/libraries/NimBLE-Arduino/src/NimBLEAdvertisedDevice.cpp:228-238 | with no removal, the first value ever set |
| AdvAgreement.NameReadsBack | firmware/libraries/NimBLE-Arduino/src/NimBLEAdvertisementData.cpp:327-339 | a first name of at most 29 bytes comes back whole; a longer one as its first 29 bytes only if its length modulo 256 is at least 29 |
| AdvAgreement.NameAgreement | firmware/libraries/NimBLE-Arduino/src/NimBLEAdvertisedDevice.cpp:244-246 | after any legal run of setters the name read is the oldest complete name set and not removed, else the newest shortened one, if and only if no empty last name hides behind one that shows; and none does if every name leaves a byte |
| AdvAgreement.NameExactly | firmware/libraries/NimBLE-Arduino/src/NimBLEAdvertisedDevice.cpp:244-246 | the same for any list of structures |
| AdvAgreement.AppearanceReads | firmware/libraries/NimBLE-Arduino/src/NimBLEAdvertisedDevice.cpp:137-147 | the appearance set is the appearance read |
| AdvAgreement.ServiceDataAgreement | firmware/libraries/NimBLE-Arduino/src/NimBLEAdvertisedDevice.cpp:327-346 | after any legal run `getServiceData(u)` gives the oldest data set for u still queued for its width |
| AdvAgreement.PopExactly | firmware/libraries/NimBLE-Arduino/src/NimBLEAdvertisementData.cpp:484-487 | taking the head off a queue takes off the first data of a UUID if and only if the queue is empty or starts with it |
| AdvAgreement.EmptyDataExactly | firmware/libraries/NimBLE-Arduino/src/NimBLEAdvertisementData.cpp:484-487 | so setting empty data for a UUID removes its own if and only if its own is first in its width; otherwise another's goes and its own stays readable |
| AdvAgreement.EmptyDataAfter | firmware/libraries/NimBLE-Arduino/src/NimBLEAdvertisedDevice.cpp:327-346 | the same after any legal run of setters, for what the reader finds, on the queue a caller can keep |
| AdvAgreement.EmptyDataRemovesAnother | firmware/libraries/NimBLE-Arduino/src/NimBLEAdvertisementData.cpp:484-487 | a payload on which another UUID loses its data |
| AdvAgreement.ParamsInRange | firmware/libraries/NimBLE-Arduino/src/NimBLEAdvertisementData.cpp:125-140 | the interval range is in order and in bounds, and as given if it was so already |
| AdvLists.ReadListed | firmware/libraries/NimBLE-Arduino/src/NimBLEAdvertisedDevice.cpp:417-457 | the lists read are the lists written |
| AdvLists.UuidAddedListed | firmware/libraries/NimBLE-Arduino/src/NimBLEAdvertisementData.cpp:146-187 | adding a UUID adds one entry to the lists of its complete type, and to no others |
| AdvLists.Relists | firmware/libraries/NimBLE-Arduino/src/NimBLEAdvertisementData.cpp:39-551 | each legal setter but `setServices` does to the list of a type what it does to a plain list: append, take out the first equal entry, clear, or nothing |
| AdvLists.ChunkCut | firmware/libraries/NimBLE-Arduino/src/NimBLEAdvertisementData.cpp:238-243 | cutting an entry out of the bytes is taking the first equal one out of the list |
| AdvLists.RunRelists | firmware/libraries/NimBLE-Arduino/src/NimBLEAdvertisementData.cpp:39-551 | so over any legal run of them, which keeps to one list of a type |
| AdvLists.ServicesAgreement | firmware/libraries/NimBLE-Arduino/src/NimBLEAdvertisedDevice.cpp:417-457 | after any such run the numbering of `getServiceUUID` runs through the UUIDs added and not removed, by width and in the order of adding, and its index arithmetic is exact |
| AdvLists.AddedIsListed | firmware/libraries/NimBLE-Arduino/src/NimBLEAdvertisedDevice.cpp:479-488 | an added UUID is among those the lists hold |
| AdvLists.AddedIsAdvertised | firmware/libraries/NimBLE-Arduino/src/NimBLEAdvertisedDevice.cpp:479-488 | after any legal run an added UUID is among those the lists hold, and without `setServices` in the run `isAdvertisingService` says so |
| AdvLists.TwoServices | firmware/libraries/NimBLE-Arduino/src/NimBLEAdvertisementData.cpp:412-450 | two calls of `setServices` leave a list each |
| AdvLists.SecondListMissed | firmware/libraries/NimBLE-Arduino/src/NimBLEAdvertisedDevice.cpp:441-454 | so two calls whose payload lists a UUID that `isAdvertisingService` denies |
| AdvLists.WrittenWhole | firmware/libraries/NimBLE-Arduino/src/NimBLEAdvertisedDevice.cpp:327-346 | service data the setters wrote is whole, so `getServiceData` may read it |
| AdvLists.WrittenTidy | firmware/libraries/NimBLE-Arduino/src/NimBLEAdvertisedDevice.cpp:441-454 | with one list of a type the payload is tidy |
| AdvLists.PackedReads | firmware/libraries/NimBLE-Arduino/src/NimBLEAdvertisementData.cpp:412-450 | `setServices` packs the UUIDs of the width in order, and calls the list complete only if that is all of them |
| AdvLimits.SucceedsExactly | firmware/libraries/NimBLE-Arduino/src/NimBLEAdvertisementData.cpp:39-551 | each setter returns true if and only if it finds room: with n bytes in use, n plus 4, 3, 3 or 6 bytes for appearance, new flags, power and parameters, plus 2 and the bytes of data, name (cut), UUID list or service data, or plus the UUID alone for a list that exists, is at most 31, data and URI have at most 29 bytes, and what it removes is there |
| AdvLimits.PackedSize | firmware/libraries/NimBLE-Arduino/src/NimBLEAdvertisementData.cpp:417-430 | a packed list takes the UUIDs of its width, up to 14, 7 or 1 of them |
| AdvLimits.ServicesExactly | firmware/libraries/NimBLE-Arduino/src/NimBLEAdvertisementData.cpp:412-450 | `setServices` makes one structure of the first 14, 7 or 1 UUIDs of the width, of the complete type exactly if that is what was asked for and all of them |
| AdvLimits.ApplySize | firmware/libraries/NimBLE-Arduino/src/NimBLEAdvertisementData.cpp:39-551 | no setter adds more bytes than its call needs |
| AdvLimits.NeverRefused | firmware/libraries/NimBLE-Arduino/src/NimBLEAdvertisementData.cpp:39-47 | a run of setters that needs at most 31 bytes in all is never refused anything |
| AdvLimits.SetIsRead | firmware/libraries/NimBLE-Arduino/src/NimBLEAdvertisedDevice.cpp:228-238 | what such a run sets first of a type, and does not take away, is what is read of it |
| AdvLimits.PushedTypes | firmware/libraries/NimBLE-Arduino/src/NimBLEAdvertisementData.cpp:63-495 | the type and value each setter adds, in numbers |
| AdvLimits.NamePushed | firmware/libraries/NimBLE-Arduino/src/NimBLEAdvertisementData.cpp:327-339 | a name of at most 29 bytes has type 9 if said to be complete, any other 8 |
| AdvLimits.FlagsExactly | firmware/libraries/NimBLE-Arduino/src/NimBLEAdvertisementData.cpp:84-100 | setting flags overwrites the first flags there are, or adds some; 0 takes the first away, or adds some; bit 2 is always set and the others are as given |
| AdvExchange.ExchangeAll | firmware/libraries/NimBLE-Arduino/src/NimBLEAdvertisedDevice.cpp:137-238 | after a run of setters that needs at most 31 bytes, the other side reads the first manufacturer data, URI and appearance of the run, without asking what the setters returned |
| AdvExchange.ExchangeAllServices | firmware/libraries/NimBLE-Arduino/src/NimBLEAdvertisedDevice.cpp:479-488 | and `isAdvertisingService` says exactly whether an equal UUID was added, if none was removed and no list set |
| AdvExchange.AppearanceComes | firmware/libraries/NimBLE-Arduino/src/NimBLEAdvertisedDevice.cpp:137-147 | the appearance read is the number that was set |
| AdvExchange.Broadcast | firmware/libraries/NimBLE-Arduino/src/NimBLEAdvertisementData.cpp:39-551 | a payload built by any legal run of setters, as the other side receives it |
| AdvExchange.Exchange | firmware/libraries/NimBLE-Arduino/src/NimBLEAdvertisedDevice.cpp:202-246 | that side's getters give the oldest manufacturer data, URI and appearance set and not removed, and the name |
| AdvExchange.ExchangeService | firmware/libraries/NimBLE-Arduino/src/NimBLEAdvertisedDevice.cpp:327-488 | and the oldest data set for a UUID, and without `setServices` whether it is among the UUIDs added and not removed |
| GattSpec.ReplaySvcs | firmware/libraries/NimBLE-Arduino/src/NimBLEServer.cpp:195-257 | the replay of the registrations gives every open service, characteristic and descriptor the handle of its own registration, duplicate UUIDs or not |
| GattSpec.ReplayChrs | firmware/libraries/NimBLE-Arduino/src/NimBLEServer.cpp:220-242 | so it does within a service |
| GattSpec.ReplayDscs | firmware/libraries/NimBLE-Arduino/src/NimBLEServer.cpp:244-256 | and within a characteristic |
| GattSpec.FillAt | firmware/libraries/NimBLE-Arduino/src/NimBLEServer.cpp:195-257 | the i-th open node takes the i-th registration, every other node stays as it was |
| GattTables.ResetExactly | firmware/libraries/NimBLE-Arduino/src/NimBLEServer.cpp:881-934 | a reset goes through if and only if the stack takes the table of every shown service, counted with the hidden ones and past those that are deleted |
| GattTables.ResetStops | firmware/libraries/NimBLE-Arduino/src/NimBLEServer.cpp:922-927 | otherwise it stops at the first service refused: those before it are reset, it is left without a table, and all behind it are as they were |
| GattTables.ResetAll | firmware/libraries/NimBLE-Arduino/src/NimBLEServer.cpp:881-934 | a reset that goes through drops the deleted services and resets all others, in order |
| GattTables.ResetBlank | firmware/libraries/NimBLE-Arduino/src/NimBLEServer.cpp:890-931 | after it every handle is 0 and nothing marked for deletion is left |
| GattTables.TableReads | firmware/libraries/NimBLE-Arduino/src/NimBLEService.cpp:86-150 | the null-terminated tables read as the characteristics that are not removed with their descriptors that are not, in order |
| GattTables.ResetMatches | firmware/libraries/NimBLE-Arduino/src/NimBLEService.cpp:86-165 | after a reset the stack's registrations are those of the open nodes, level by level |
| GattTables.ReplayIsOwn | firmware/libraries/NimBLE-Arduino/src/NimBLEServer.cpp:195-257 | built-in services first, every open node gets its own handle exactly when no open service has a UUID equal to a built-in one's |
| GattTables.BuiltinTakes | firmware/libraries/NimBLE-Arduino/src/NimBLEServer.cpp:199-213 | otherwise such a service ends with the built-in's handle |
| GattTables.HandleSticks | firmware/libraries/NimBLE-Arduino/src/NimBLEServer.cpp:202-203 | a service's handle is set once |
| GattTables.SvcHandle | firmware/libraries/NimBLE-Arduino/src/NimBLEServer.cpp:195-213 | service by service: shown, its registration's handle; hidden, 0 |
| GattTables.ChrHandle | firmware/libraries/NimBLE-Arduino/src/NimBLEServer.cpp:222-242 | the same for characteristics |
| GattTables.DscHandle | firmware/libraries/NimBLE-Arduino/src/NimBLEServer.cpp:244-256 | the same for descriptors |
| GattTables.FillServes | firmware/libraries/NimBLE-Arduino/src/NimBLEServer.cpp:195-257 | after a reset and its replay nothing shown is without a handle |
| Gatt.Server.CreateService | firmware/libraries/NimBLE-Arduino/src/NimBLEServer.cpp:98-103 | a new service at the end; a started server then owes a restart |
| Gatt.Server.RemoveService | firmware/libraries/NimBLE-Arduino/src/NimBLEServer.cpp:819-847 | marked, deleted, or left alone |
| Gatt.Server.RestoreService | firmware/libraries/NimBLE-Arduino/src/NimBLEServer.cpp:869-870 | a removed service is shown again |
| Gatt.Server.AddNewService | firmware/libraries/NimBLE-Arduino/src/NimBLEServer.cpp:862-867 | a new service on a started server is never served: nothing records that a start is due |
| Gatt.Server.BuildDescs | firmware/libraries/NimBLE-Arduino/src/NimBLEService.cpp:111-139 | the descriptor table, counted, filled and terminated |
| Gatt.Server.BuildTable | firmware/libraries/NimBLE-Arduino/src/NimBLEService.cpp:91-150 | the characteristic table |
| Gatt.Server.ResetDescs | firmware/libraries/NimBLE-Arduino/src/NimBLEServer.cpp:906-917 | the innermost loop |
| Gatt.Server.ResetCharacteristics | firmware/libraries/NimBLE-Arduino/src/NimBLEServer.cpp:898-920 | the loop around it |
| Gatt.Server.StartInternal | firmware/libraries/NimBLE-Arduino/src/NimBLEService.cpp:86-167 | the table handed over, or cleared if the stack refuses |
| Gatt.Server.ResetGATT | firmware/libraries/NimBLE-Arduino/src/NimBLEServer.cpp:881-934 | the three nested loops, up to the first service refused; it succeeds if and only if none is |
| Gatt.Server.GattRegisterCallback | firmware/libraries/NimBLE-Arduino/src/NimBLEServer.cpp:195-257 | one registration does exactly the abstract step |
| Gatt.Server.RegisterService | firmware/libraries/NimBLE-Arduino/src/NimBLEServer.cpp:198-216 | the first open service with an equal UUID |
| Gatt.Server.RegisterCharacteristic | firmware/libraries/NimBLE-Arduino/src/NimBLEServer.cpp:225-242 | the first open characteristic of the current service |
| Gatt.Server.RegisterDescriptor | firmware/libraries/NimBLE-Arduino/src/NimBLEServer.cpp:244-256 | the first open descriptor of the current characteristic |
| Gatt.Server.Start | firmware/libraries/NimBLE-Arduino/src/NimBLEServer.cpp:264-313 | when due: succeeds if and only if every shown service's table is taken and `ble_gatts_start` does not fail; then the replay is done, every shown node served, unless a UUID is a built-in's, and the server is started |
| ClientTheorems.GoodStep | firmware/libraries/NimBLE-Arduino/src/NimBLEClient.cpp:1012-1410 | every event of either task keeps: pending implies a valid handle and, while connected, an armed timer; the task pointer is set only while its task waits |
| ClientTheorems.ConnectRun | firmware/libraries/NimBLE-Arduino/src/NimBLEClient.cpp:971-1149 | over any run each onConnect answers one accepted CONNECT, at most once and never after its DISCONNECT, and one connect() makes at most eight attempts |
| ClientTheorems.AnswersDiffer | firmware/libraries/NimBLE-Arduino/src/NimBLEClient.cpp:971-987 | no two onConnects answer the same CONNECT |
| ClientTheorems.AttemptsBounded | firmware/libraries/NimBLE-Arduino/src/NimBLEClient.cpp:1062-1080 | with the number of retries left alone, at most one attempt more than that |
| ClientTheorems.CleanStep | firmware/libraries/NimBLE-Arduino/src/NimBLEClient.cpp:249-325 | if no connect() begins with a handle held, each step keeps releases with 0 behind their onConnect |
| ClientTheorems.ReleaseAfterConnect | firmware/libraries/NimBLE-Arduino/src/NimBLEClient.cpp:249-325 | so in such a run the waiting task is released with 0 only after onConnect ran for its connect() |
| ClientTheorems.OldHandleReleases | firmware/libraries/NimBLE-Arduino/src/NimBLEClient.cpp:1338-1406 | from every state in which a connect() may begin with a handle held, an event of the old connection releases it with 0 before anything was connected |
| ClientTheorems.MisledExactly | firmware/libraries/NimBLE-Arduino/src/NimBLEClient.cpp:249-325 | so in whatever state it begins, a connect() can be released with 0 too soon if and only if a handle is held |
| ClientTheorems.TidyExactly | firmware/libraries/NimBLE-Arduino/src/NimBLEClient.cpp:249-325 | a client that is not connected comes to hold a handle exactly by a connect() that fails while one is held |
| ClientTheorems.RefusedConnect | firmware/libraries/NimBLE-Arduino/src/NimBLEClient.cpp:261-324 | in particular one refused because the client is connected: it marks the client disconnected and keeps the handle |
| ClientTheorems.RefusedConnectMisleads | firmware/libraries/NimBLE-Arduino/src/NimBLEClient.cpp:1338-1406 | after it the next connect() can be released too soon if and only if the client does not delete itself on failure |
| ClientTheorems.ConnectedReached | firmware/libraries/NimBLE-Arduino/src/NimBLEClient.cpp:1104-1130 | any client gets to such a connected state |
| ClientTheorems.ToldStep | firmware/libraries/NimBLE-Arduino/src/NimBLEClient.cpp:249-325 | every step keeps: for a task inside connect(), whatever was held when it began, a link that is up and not pending has had its onConnect |
| ClientTheorems.ExpireReturns | firmware/libraries/NimBLE-Arduino/src/NimBLEClient.cpp:296-305 | so after any run a wait that times out makes connect() return true exactly if the link is up; onConnect has then run unless it is pending, and then the accepted CONNECT still lacks it |
| ClientTheorems.ExpireBeforeConnect | firmware/libraries/NimBLE-Arduino/src/NimBLEClient.cpp:296-305 | and a run in which it is pending |
| ClientProgress.DropRetries | firmware/libraries/NimBLE-Arduino/src/NimBLEClient.cpp:1062-1080 | a connection lost with reason 0x23e, with retries left and an attempt that starts, adds exactly the loss and the attempt: status connecting, no handle, one retry more counted, and connect() goes on waiting |
| ClientProgress.DropEndsIt | firmware/libraries/NimBLE-Arduino/src/NimBLEClient.cpp:1080-1102 | any other loss ends the matter: no attempt is added but one that could not be started, then the callback, the deletion if wanted, and the release with the reason |
| ClientProgress.AttemptsExactly | firmware/libraries/NimBLE-Arduino/src/NimBLEClient.cpp:1062-1080 | behind a connect() with n retries, whatever else happens: if every loss is one of establishment and every retry starts, its attempts are 1 + min(losses, n) |
| ClientProgress.RetriesShown | firmware/libraries/NimBLE-Arduino/src/NimBLEClient.cpp:249-325 | with n retries, every attempt started and every establishment lost, connect() shows an attempt, n losses each with another attempt, and then a loss with `onConnectFail(0x23e)`, the release, and false |
| ClientProgress.RetriesCounted | firmware/libraries/NimBLE-Arduino/src/NimBLEClient.cpp:1062-1080 | what it shows holds one attempt more than there were retries |
| ClientProgress.ConnectAccepted | firmware/libraries/NimBLE-Arduino/src/NimBLEClient.cpp:1104-1130 | a CONNECT that is waited for, with status 0 or 0x1a, is accepted, with onConnect pending and its timer armed |
| ClientProgress.ConnectTurned | firmware/libraries/NimBLE-Arduino/src/NimBLEClient.cpp:1106-1109 | one that is not waited for is turned away and changes nothing |
| ClientProgress.ConnectRefused | firmware/libraries/NimBLE-Arduino/src/NimBLEClient.cpp:1131-1149 | any other status fails the attempt: by callback for an asynchronous caller, by release for one that waits |
| ClientProgress.ProofConnects | firmware/libraries/NimBLE-Arduino/src/NimBLEClient.cpp:971-987 | the timer, or any event of the connection, runs a pending onConnect and then releases a waiting task with 0 |
| ClientProgress.ProofElse | firmware/libraries/NimBLE-Arduino/src/NimBLEClient.cpp:989-996 | otherwise they show nothing but the release of a task that waits for a report |
| ClientProgress.ConnectSucceeds | firmware/libraries/NimBLE-Arduino/src/NimBLEClient.cpp:249-325 | a connect() whose attempt is accepted and whose link then shows any sign of life returns true, with onConnect before that |
| ClientProgress.BeginShows | firmware/libraries/NimBLE-Arduino/src/NimBLEClient.cpp:249-292 | a connect() that passes its checks makes one attempt with all retries ahead, and waits or returns true at once; any other fails |
| ClientProgress.FailShows | firmware/libraries/NimBLE-Arduino/src/NimBLEClient.cpp:318-324 | the error exit in full |
| ClientProgress.EachReturnsOnce | firmware/libraries/NimBLE-Arduino/src/NimBLEClient.cpp:249-325 | over any run as many connect()s have returned as have begun, but for one that may be going on |
| Client.NimBLEClient.Connect | firmware/libraries/NimBLE-Arduino/src/NimBLEClient.cpp:249-292 | connect() up to its wait does exactly the abstract step |
| Client.NimBLEClient.Resume | firmware/libraries/NimBLE-Arduino/src/NimBLEClient.cpp:296-325 | connect() after its wait |
| Client.NimBLEClient.Fail | firmware/libraries/NimBLE-Arduino/src/NimBLEClient.cpp:318-324 | its error exit |
| Client.NimBLEClient.CompleteConnectEstablished | firmware/libraries/NimBLE-Arduino/src/NimBLEClient.cpp:971-987 | runs a pending onConnect, once, and then releases the task |
| Client.NimBLEClient.ConnectEstablishedTimerCb | firmware/libraries/NimBLE-Arduino/src/NimBLEClient.cpp:989-996 | only while connected |
| Client.NimBLEClient.SetConnectRetries | firmware/libraries/NimBLE-Arduino/src/NimBLEClient.cpp:1003-1005 | at most 7 |
| Client.NimBLEClient.OnDisconnectEvent | firmware/libraries/NimBLE-Arduino/src/NimBLEClient.cpp:1020-1102 | does exactly the abstract step: retry, report, delete, release (`ClientProgress.DropRetries`, `DropEndsIt`) |
| Client.NimBLEClient.OnConnectEvent | firmware/libraries/NimBLE-Arduino/src/NimBLEClient.cpp:1104-1149 | accept, turn away, or fail |
| Client.NimBLEClient.OnQuietEvent | firmware/libraries/NimBLE-Arduino/src/NimBLEClient.cpp:1165-1263 | an event that proves the link |
| Client.NimBLEClient.OnReportingEvent | firmware/libraries/NimBLE-Arduino/src/NimBLEClient.cpp:1265-1351 | one that also releases a waiting task |
| Client.NimBLEClient.Handle | firmware/libraries/NimBLE-Arduino/src/NimBLEClient.cpp:1012-1410 | any event does exactly the abstract step |
| Lines.RawPrinted | firmware/src/StorageManager.cpp:138-143 | printed lines read back one by one, each with a carriage return more |
| Lines.RawAppend | firmware/src/StorageManager.cpp:138-143 | appending to a file whose last line is ended appends its lines |
| Lines.TrimWithCR | firmware/src/StorageManager.cpp:106-108 | the carriage returns a line collects do not show once it is trimmed |
| QueueSpec.AckExactly | firmware/src/StorageManager.cpp:116-136 | acknowledging n of the items removes exactly the first n, and keeps the others in order, if and only if no line of space is among the lines it counts |
| QueueSpec.AckClean | firmware/src/StorageManager.cpp:116-136 | so it does on every file the queue keeps, which stays such a file |
| QueueSpec.DrainsInEights | firmware/src/StorageManager.cpp:99-136 | k batches posted and acknowledged take the first 8k items off such a file, or all of them, in order |
| QueueSpec.AppendAdds | firmware/src/StorageManager.cpp:138-143 | an appended line is one item more, at the end |
| QueueSpec.CutJoins | firmware/src/StorageManager.cpp:174-182 | cutting a line at its first commas loses nothing |
| QueueSpec.CutOfJoined | firmware/src/StorageManager.cpp:18-29 | a line of values without commas is cut back into them |
| QueueSpec.HistoryIsList | firmware/src/StorageManager.cpp:169-186 | the history is the list of its rows, one comma between any two, if and only if no malformed line stands behind a row |
| QueueSpec.HistoryReadsBack | firmware/src/StorageManager.cpp:155-189 | the history of a file of rows, with or without the header line in front, is the text of its last `limit` rows, value for value, with one comma between any two |
| QueueSpec.RowAppended | firmware/src/StorageManager.cpp:52-66 | the file `begin` creates is such a file, and a sample appended is a row more |
| QueueSpec.RowNamed | firmware/src/StorageManager.cpp:182-182 | a row is an object of eight members, each name with the value of its column |
| QueueSpec.HeaderNames | firmware/src/StorageManager.cpp:63-63 | and these names are the columns of the header line, in order |
| Storage.StorageManager.Rotate | firmware/src/StorageManager.cpp:145-153 | a full file takes the place of its predecessor, another stays |
| Storage.StorageManager.AppendLine | firmware/src/StorageManager.cpp:138-143 | rotation, then one line more |
| Storage.StorageManager.RecordTelemetry | firmware/src/StorageManager.cpp:71-76 | a sample is taken if mounted, valid and 60 seconds after the last, and then joins history and queue; if a file was full, everything in it goes out with it first and the file replaces its predecessor; every sample recorded is delivered, rotated out or still queued, in order |
| Storage.StorageManager.NextRemoteBatch | firmware/src/StorageManager.cpp:99-114 | the first items, as many as asked for or all there are, joined in brackets, and their number |
| Storage.StorageManager.AcknowledgeRemoteBatch | firmware/src/StorageManager.cpp:116-136 | drops and reprints as specified |
| Storage.StorageManager.PublishNextBatch | firmware/src/RemoteSync.cpp:33-55 | the first eight samples are posted, or all there are; an answer in the 200s takes exactly these off the queue as delivered, anything else leaves the files alone |
| Storage.StorageManager.Separate | firmware/src/StorageManager.cpp:174-182 | the eight values of a line with seven commas or more |
| Storage.StorageManager.HistoryJson | firmware/src/StorageManager.cpp:155-189 | the last samples the history holds, as many as asked for at most, with the values that were recorded, in brackets |
| Storage.StorageManager.TailLinesJson | firmware/src/StorageManager.cpp:155-189 | on any file: what the loop writes for the last lines, in brackets |
| Storage.StorageManager.Reprint | firmware/src/StorageManager.cpp:124-132 | the loop of the acknowledgement |
| Storage.StorageManager.WriteRow | firmware/src/StorageManager.cpp:170-182 | what one line adds |
| Storage.RemoteSync.Loop | firmware/src/RemoteSync.cpp:26-31 | one attempt an interval; one answered in the 200s takes exactly the batch posted off the queue as delivered, any other leaves the files alone |
| Cbc.ChainBlocks | firmware/libraries/NimBLE-Arduino/src/nimble/ext/tinycrypt/src/cbc_mode.c:56-72 | output block 0 is the IV, and each next one the encryption of the input block XORed with the output block before (section 6.2 of NIST SP 800-38A) |
| Cbc.RoundTrip | firmware/libraries/NimBLE-Arduino/src/nimble/ext/tinycrypt/src/cbc_mode.c:77-114 | for every cipher with an inverse, IV and number of blocks, decryption gives the plaintext back |
| Cbc.UnchainBlocks | firmware/libraries/NimBLE-Arduino/src/nimble/ext/tinycrypt/src/cbc_mode.c:103-111 | block j of the plaintext is the decryption of block j + 1 XORed with block j (section 6.2 of NIST SP 800-38A) |
| Cbc.XorBits | firmware/libraries/NimBLE-Arduino/src/nimble/ext/tinycrypt/src/cbc_mode.c:64-64 | a bit is set in the result exactly if it is set in one of the two |
| Cbc.DecryptUndoesEncrypt | firmware/libraries/NimBLE-Arduino/src/nimble/ext/tinycrypt/src/cbc_mode.c:37-114 | so it does for what `Encrypt` put out, whatever lies behind it in the buffer |
| Cbc.XorUndoes | firmware/libraries/NimBLE-Arduino/src/nimble/ext/tinycrypt/src/cbc_mode.c:64-64 | XOR is undone by XOR |
| Cbc.Encrypt | firmware/libraries/NimBLE-Arduino/src/nimble/ext/tinycrypt/src/cbc_mode.c:37-75 | refuses bad lengths and touches nothing; otherwise the byte loop computes the chain and touches nothing behind it |
| Cbc.EncryptBlocks | firmware/libraries/NimBLE-Arduino/src/nimble/ext/tinycrypt/src/cbc_mode.c:63-72 | the byte loop |
| Cbc.Decrypt | firmware/libraries/NimBLE-Arduino/src/nimble/ext/tinycrypt/src/cbc_mode.c:77-114 | refuses bad lengths and touches nothing; otherwise the first `outlen` bytes are the opened chain |
| Cbc.DecryptBlocks | firmware/libraries/NimBLE-Arduino/src/nimble/ext/tinycrypt/src/cbc_mode.c:103-111 | the byte loop, one block longer than the plaintext |
| BondSpec.KeysDiffer | firmware/libraries/NimBLE-Arduino/src/NimBLEBondMigration.h:219-222 | no two slots share a key |
| BondSpec.KeyFits | firmware/libraries/NimBLE-Arduino/src/NimBLEBondMigration.h:219-222 | every uint16_t slot's key fits its 16 bytes |
| BondSpec.Resumable | firmware/libraries/NimBLE-Arduino/src/NimBLEBondMigration.h:411-493 | a run stopped after any number of entries, then a whole run, come to one whole run |
| BondSpec.AlwaysResumable | firmware/libraries/NimBLE-Arduino/src/NimBLEBondMigration.h:411-493 | so for any number of interruptions, either way |
| BondSpec.Touched | firmware/libraries/NimBLE-Arduino/src/NimBLEBondMigration.h:411-493 | each slot of a run has had its own step, once |
| BondSpec.ThereAndBack | firmware/libraries/NimBLE-Arduino/src/NimBLEBondMigration.h:224-347 | to the current layout and back restores every V1 record in range and leaves every blob of unknown size alone |
| BondSpec.LocalIrkLost | firmware/libraries/NimBLE-Arduino/src/NimBLEBondMigration.h:349-409 | the local identity key is replaced going up, of whatever size it was, and erased going down |
| BondSpec.BeyondRange | firmware/libraries/NimBLE-Arduino/src/NimBLEBondMigration.h:411-493 | slots beyond the range are out of reach |
| BondSpec.DecimalReads | firmware/libraries/NimBLE-Arduino/src/NimBLEBondMigration.h:219-222 | a slot's number is printed in digits that stand for it |
| BondSpec.KeyTexts | firmware/libraries/NimBLE-Arduino/src/NimBLEBondMigration.h:31-34 | the keys are `our_sec_`, `peer_sec_` and `local_irk_` and that number |
| BondSpec.FieldsKept | firmware/libraries/NimBLE-Arduino/src/NimBLEBondMigration.h:262-278 | a record keeps peer, trust and keys either way; going up it takes the slot's number and a sign counter of 0 |
| BondSpec.TallyIs | firmware/libraries/NimBLE-Arduino/src/NimBLEBondMigration.h:224-409 | each slot is counted as it stood before the run, as scanned, converted, already there or of strange size; the counters show that modulo 2^16 |
| BondSpec.CommitExactly | firmware/libraries/NimBLE-Arduino/src/NimBLEBondMigration.h:473-481 | a run that gets through commits if and only if the number of conversions is no multiple of 65536 |
| BondSpec.ConvertsChanges | firmware/libraries/NimBLE-Arduino/src/NimBLEBondMigration.h:224-409 | exactly what is converted changes, but for a default local key written over itself |
| BondSpec.EachOnce | firmware/libraries/NimBLE-Arduino/src/NimBLEBondMigration.h:288-409 | on the way down the slots scanned are those converted, already there or strange, each once |
| BondMigration.BondStore.MigrateEntryToCurrent | firmware/libraries/NimBLE-Arduino/src/NimBLEBondMigration.h:224-286 | one entry's effect and its count, or none if a store call failed |
| BondMigration.BondStore.MigrateEntryToV1 | firmware/libraries/NimBLE-Arduino/src/NimBLEBondMigration.h:288-347 | the same back |
| BondMigration.BondStore.MigrateLocalIrkEntryToCurrent | firmware/libraries/NimBLE-Arduino/src/NimBLEBondMigration.h:349-383 | the default, whatever was there |
| BondMigration.BondStore.MigrateLocalIrkEntryToV1 | firmware/libraries/NimBLE-Arduino/src/NimBLEBondMigration.h:385-409 | erased if there |
| BondMigration.BondStore.MigrateBondStore | firmware/libraries/NimBLE-Arduino/src/NimBLEBondMigration.h:411-493 | succeeds if and only if no store call fails; whichever does, the store is a whole number of entries along; success means all of them, counted, and a commit if anything was converted |
| BondMigration.BondStore.MigrateSecurity | firmware/libraries/NimBLE-Arduino/src/NimBLEBondMigration.h:428-453 | the loop over the security records |
| BondMigration.BondStore.EraseIrks | firmware/libraries/NimBLE-Arduino/src/NimBLEBondMigration.h:465-476 | the loop over the identity keys |
| BleUuid.EqualIsWidened | firmware/libraries/NimBLE-Arduino/src/NimBLEUUID.cpp:301-334 | `operator==` on initialised UUIDs is equality of the 128-bit forms, except that a 16-bit and a 32-bit UUID never compare equal |
| BleUuid.EqualNotTransitive | firmware/libraries/NimBLE-Arduino/src/NimBLEUUID.cpp:301-334 | which costs it transitivity |
| BleUuid.TransitiveExactly | firmware/libraries/NimBLE-Arduino/src/NimBLEUUID.cpp:301-334 | two equalities in a row give the third if and only if the outer two are of one width, or one of them has 128 bits |
| BleUuid.NarrowUndoesWiden | firmware/libraries/NimBLE-Arduino/src/NimBLEUUID.cpp:235-264 | `to16` undoes `to128` on 16-bit values, and otherwise only where nothing was to be done |
| BleUuid.ReversedTwice | firmware/libraries/NimBLE-Arduino/src/NimBLEUUID.cpp:286-296 | reversing twice changes nothing |
| BleUuid.NarrowExact | firmware/libraries/NimBLE-Arduino/src/NimBLEUUID.cpp:254-264 | `to16` keeps the UUID equal exactly when no bits above 16 are set in one built on the base UUID |
| BleUuid.NimBLEUUID.To128 | firmware/libraries/NimBLE-Arduino/src/NimBLEUUID.cpp:235-246 | the base UUID with the value over it |
| BleUuid.NimBLEUUID.To16 | firmware/libraries/NimBLE-Arduino/src/NimBLEUUID.cpp:254-264 | the two bytes, if the rest is the base UUID |
| BleUuid.NimBLEUUID.ReverseByteOrder | firmware/libraries/NimBLE-Arduino/src/NimBLEUUID.cpp:286-296 | byte k comes from the other end; twice is nothing |
| BleAddress.PrintThenParse | firmware/libraries/NimBLE-Arduino/src/NimBLEAddress.cpp:63-81 | parsing a printed address gives the same six bytes |
| BleAddress.IntRoundTrip | firmware/libraries/NimBLE-Arduino/src/NimBLEAddress.cpp:114-117 | the integer forms invert each other on 48 bits |
| BleAddress.TextFrom | firmware/libraries/NimBLE-Arduino/src/NimBLEAddress.cpp:232-249 | the text is the bytes from the last to the first, two lower-case digits each, colons between |
| BleAddress.FormsTaken | firmware/libraries/NimBLE-Arduino/src/NimBLEAddress.cpp:63-107 | the byte-array form reverses, six characters are taken as such bytes, and text of any length but 6 and 17 gives the null address |
| BleAddress.NimBLEAddress.ReverseByteOrder | firmware/libraries/NimBLE-Arduino/src/NimBLEAddress.cpp:205-208 | byte k comes from the other end |

## Left out

- Extended advertising, the L2CAP channel, `secureConnection` and pairing, service discovery by the client: compiled out, or dependent on what the stack does unseen.
- `NimBLEScan::start`, `getResults` and their blocked task, scan statistics, and a scan's interval, window and filter settings: they do not touch the waiting list.
- The scheduling of the stream's drain event and callout: `send` may be called at any time in the model, which covers every schedule. `begin` and `end` and streams without buffers.
- Stream.BleStream.PushRx: the code reads the receive buffer without looking whether there is one; the model asks for one. The mutex fails only for a buffer that could not be allocated. A capacity of 0 is not modelled.
- Stream.BleStream.Flush: asks that its loop ends, since the code's need not; `FlushSpec.FlushEnds` and `FlushSpec.BusyEnds` say when it does.
- AdvWriter.AdvertisementData.RemoveServiceUUID: for an unlisted UUID asks that no comparison of the search reaches past the payload, where the code would read beyond its vector.
- AdvWriter.AdvertisementData.SetServiceData: leaves out lengths whose eight-bit sum wraps to 31 or less, where the code would overrun its buffer of 31 bytes.
- Raw `addData` with arbitrary bytes; the convenience setters that call the modelled ones; `clearData`.
- AdvReader.AdvertisedDevice.FindAdvField: payloads longer than 255 bytes are walked with wrapping counters as in the code, but the theorems about it are for up to 255 bytes.
- AdvReader.AdvertisedDevice.GetServiceData: asks that each service data structure of the width holds its UUID, as the code reads it without looking. `getServiceData` and `getServiceDataUUID` by index.
- AdvReader.AdvertisedDevice.GetPayloadByType: asks that the location is written when it is used; the code reads an uninitialised variable where it is not.
- AdvWriterSpec.ApplySound: asks for `LegalOp`, as do all theorems on runs of setters: no removal of an unlisted UUID that the bytes behind its list spell, or whose search would read beyond the vector, and no service data whose wrapped length passes the check. What the code does to the bytes in the first case is `AdvWriter.AdvertisementData.RemoveServiceUUID`'s contract.
- `getTargetAddress`, and the getters that read one fixed field the way `getAppearance` does.
- The advertised device appears as two classes: in `Scan` with the fields the scanner works on, in `AdvReader` with its payload.
- Attribute nodes are values in `Gatt`: identity is position in the tree. A node that is added twice, or kept outside the server, is not modelled; nor are properties, values and access callbacks. The stack's client-configuration descriptors make no callbacks and do not appear.
- Gatt.Server.Start: the stack is taken to register its own services first and then each table handed over, in order, with positive handles.
- Memory of the definition tables: allocation and freeing are not modelled, only the arrays' contents.
- Clients: one application task calls `connect()`, one at a time. A task is woken by a release or by its timeout and not otherwise. The DISCONNECT event is taken to have found its client. What a callback does is left out, and so are `m_lastErr` and the counters for failed terminations and secure attempts. `deleteClient` by the application.
- Client.NimBLEClient.DisconnectPeer: the stack's answer is only accepted or not.
- Storage.StorageManager.RecordTelemetry: the formatting of a sample is a parameter: its eight values are taken to have no commas and to make a line that is not the header, its JSON to be one line without space at its ends.
- Storage.StorageManager.AcknowledgeRemoteBatch: the file operations succeed; a failed rename after the removal would lose the queue.
- The event log, `eventsJson`, and the values read before mounting. HTTP, TLS and Wi-Fi are the answer to a post, and whether one was begun.
- The cipher itself, key schedules, and null arguments in `Cbc`.
- Bond records are values of their fields, told apart by layout: padding bytes and unused bits of a stored blob are not modelled. The dump of the store is left out. BondMigration.BondStore.MigrateBondStore excludes 65535 entries, where the code's counter would never pass its bound.
- BleAddress.FromText: leading space, signs and a 0x prefix, which `stoull` takes, are not modelled; printing is with the default format.
- UUIDs from text and to text; the conversions of an uninitialised UUID, where the code reads a value that was never set.
- Logging, `toString`, statistics, constant tables and plain accessors.
- LiTime frames, the dashboards, over-the-air updates and the web pages.
