# ugreenctl: verified models of the LED, fan and disk-bay cores

This project models five parts of ugreenctl in Dafny and proves what they promise under every fault
pattern, request sequence, temperature and directory order.

* **CS2011 LED driver** (`CsBoard.dfy`, `Cs2011.dfy`): the register file behind an address latch, with
  port accesses that may fail or be lost, and the driver on top of it: guards, snapshots, ordered
  commits with rollback, identify, and the holder that takes the FLOW register over and gives it back.
* **LED holder protocol** (`LedWire.dfy`, `LedLink.dfy`, `Connection.dfy`, `LedIdeal.dfy`,
  `LedServer.dfy`, `LedSession.dfy`): the wire format, the byte stream between client and server as
  interleaved steps, an ideal session that knows no registers and no faults, the server's session on top
  of the driver and measured against it, and the layers composed.
* **Fan policy** (`FanCurve.dfy`, `FanDaemon.dfy`): interpolated curves and the delayed downshift.
* **Disk bays** (`DiskModel.dfy`, `DiskPorts.dfy`, `DiskAta.dfy`, `DiskInventory.dfy`,
  `DiskNamespaces.dfy`, `DiskConflicts.dfy`, `DiskResolve.dfy`, `DiskScan.dfy`): port inventories,
  controller roles, the inventory recheck, NVMe coalescing in place, conflict elimination and selectors,
  composed into one scan that does not depend on directory order.
* **LED wire protocols and requests** (`LedFrame.dfy`, `Mcu.dfy`, `N76.dfy`, `N76Session.dfy`,
  `LedRequest.dfy`, `Identity.dfy`): checksummed frames, the microcontroller and N76 paths, patch
  merging and scheduling, and the device-tree `compatible` list.

`Base.dfy` and `Led.dfy` hold the shared types and the two patch validators. `dafny verify
dfyconfig.toml` checks everything.

How faults are modelled: each port, bus or register access chooses its outcome freely. It works, or it
reports an error with or without effect; a write to a data port, a command frame and an N76 register write
may also be accepted and silently lost. An address byte that was accepted is latched, and a read that
succeeds is truthful. Machine identity, owner, lock and permission checks are one check that may refuse at
any time with any error, and that refuses for as long as the machine has an outage. A machine may also be
declared quiet, so that nothing fails on it but what an outage or a stuck register explains; that is how a
particular failure is made to happen. A ghost fault counter lets contracts also say what must succeed when
nothing goes wrong: a driver, server or daemon that always refuses does not meet them. Every write and the
hardware state right after it are kept in ghost traces, which is how statements about each intermediate
state are made.

The functions that contracts refer to are themselves characterized, in units and numbers a reader can check:
acceptance in milliseconds and frame words (`Cs2011.AcceptedExactly`, `LedIdeal.WritesExactly`), bays by
vendor, device and bridge (`DiskAta.IntelThenAsmedia`), selectors by what a disk carries
(`DiskResolve.CarrierSelects`), fan curves by their points (`FanCurve.EvaluateFollowsCurve`) and wire formats
by known frames (`LedFrame.KnownCommand`).

## Where the code and a desired property part

* **A refused restoration can be mistaken for "nothing saved".** After a failed BEGIN the server undoes
  it and takes ENOENT to mean that the driver had saved nothing (led/led_service.c:171-180). The driver's
  guard can itself fail with ENOENT, for instance when /proc/ioports cannot be opened
  (led/led_cs201x.c:87). The session invariant `LedServer.Server.Sync` therefore says that driver and
  session agree exactly unless an undo was misread, and `LedServer.Server.UndoBegin` says exactly when one
  is: an identify was pending and its restoration was refused with ENOENT. At the end of a connection that
  reports no failure, an identify is pending if and only if that happened (`LedServer.ConnectionEnds`).
  `LedServer.MisreadRestoration` makes it happen on any session: a stuck register fails the BEGIN after the
  LED was saved, and the outage refuses the undo. `LedServer.MisreadExample` is a whole such run. A complete
  restore at shutdown still repairs it (`LedServer.DaemonLife`).
* **A clock set back ends a downshift hold at once.** The elapsed wall-clock time is cast to an unsigned
  type (core/fan_daemon.c:302-310). `FanDaemon.ClockSetBackEndsHold` is the concrete case and
  `FanDaemon.HeldExactlyWithinDelay` the exact condition.
* **Merging "blink" and a later "on" gives an invalid patch,** though both actions in order are fine.
  `LedRequest.CancelledEffectIsRefused` is the concrete case, `LedRequest.MergeIsValidUnlessCancelled`
  the exact condition, and `LedRequest.OneModeIsNeverCancelled` shows that the `led set` parser, which
  takes `--mode` once, cannot produce it.
* **One request refused during an outage locks the holder out,** unless the connection holds an identify.
  A failed guard leaves the driver unconfirmed, only a guard confirms it again, and requests to an
  unconfirmed driver never reach one (led/led_service.c:150). The one way back is the end of a connection
  that has an identify to undo (led/led_service.c:229-232). The condition is exact: unless restoring fails,
  the driver is confirmed after a connection if and only if it was confirmed after the last request or an
  identify was pending then (`LedServer.ConnectionEnds`), and so after one READ during an outage if and only
  if an identify was saved (`LedServer.ReadInOutage`). `LedServer.LockedOut` is the concrete case without
  one: after the outage has ended, every request of every connection is read and refused.
* **The GPIO holder refuses a colour for an LED that is to be dark, which the preflight does not foresee**
  (led/led_gpio.c:359-360, core/hardware_cli.c:874-882). `LedRequest.DarkColorIsNotForeseen` is the concrete
  case, `LedRequest.RefusedExactlyWhenDarkened` the exact condition, and `LedRequest.RefusedFirstOrNever` shows
  that requests from the parsers are still never left half done.

## Model

| member | source | states |
|---|---|---|
| `CsBoard.RegAddress` | led/led_cs201x.c:216-220 | an LED register is never FLOW, and the register map read backwards gives the LED and field it was made from, so no two LED bytes share a register |
| `CsBoard.RegistersAreDistinct` | led/led_cs201x.c:216-220 | the 28 addresses are exactly the numbers the register map recognises |
| `CsBoard.RegisterMap` | led/led_cs201x.c:216-220 | the register of every LED byte, and of FLOW, as numbers |
| `CsBoard.AddressBytesRecompose` | led/led_cs201x.c:204-210 | the four bytes put on the bus recompose every 32-bit register number |
| `CsBoard.Board.WriteAddress` | led/led_cs201x.c:141-159 | an accepted address byte is latched; an error leaves open whether it was; no register changes |
| `CsBoard.Board.WriteData` | led/led_cs201x.c:141-159 | a data write lands, is lost or errors, and touches only the latched register; a stuck register keeps its value; a FLOW takeover may also disturb LED bytes |
| `CsBoard.Board.ReadPort` | led/led_cs201x.c:132-140 | a data read is the latched register's value or an error |
| `Cs2011.PatchIsVisible` | led/led_cs201x.c:308-332 | decoding the patched bytes shows the patch in every patched field and the previous value elsewhere; 50 ms timing survives its byte encoding |
| `Cs2011.LegalMeans` | led/led_cs201x.c:258-265 | legal bytes are exactly those that read back as off, on, a blink of at least 100 ms on and off, or a breath of at least 1000 ms up and 500 ms down |
| `Cs2011.AcceptedExactly` | led/led_cs201x.c:489-508 | a patch is accepted exactly when its fields are in range, its timing comes in 50 ms steps of at most 12750 ms, and the mode it leaves can run with the timing it leaves, in milliseconds |
| `Cs2011.ProfileMatchesDriver` | models/led_profiles.c:34-37 | of the well-formed patches the driver takes exactly those that the profile's limits let through on the command line |
| `Cs2011.WantedBytes` | led/led_cs201x.c:497-506 | the duty byte counts the 50 ms steps on, the period byte those of the whole cycle, and every other byte is the patch's or the old one |
| `Cs2011.IdentifyShows` | led/led_cs201x.c:521-522 | identify is a blue blink at full brightness, 200 ms on and off |
| `Cs2011.EveryWriteIsGuarded` | led/led_cs201x.c:223-257 | in a disciplined log of any length each write directly follows a guard with force and apply; LED writes saw FLOW 1 and hit an LED register, FLOW writes come after a full snapshot of the same holder life |
| `Cs2011.DisciplinedAppend` | led/led_cs201x.c:296-343 | one more event in order keeps the whole log disciplined |
| `Cs2011.GuardAllows` | led/led_cs201x.c:335-339 | a guard for writing under FLOW 1 puts an LED write in order |
| `Cs2011.MidwayStep` | led/led_cs201x.c:344-356 | the next byte of the commit order, written or skipped, keeps a legal LED legal: timing changes only while stopped and the mode comes last |
| `Cs2011.MidwayDone` | led/led_cs201x.c:344-356 | after all seven fields, written or skipped, the LED holds exactly the wanted bytes |
| `Cs2011.TransactionsCompose` | led/led_cs201x.c:344-368 | legality of every intermediate state composes across the quiesce step, the writes and the rollback |
| `Cs2011.TransactionIsLegal` | led/led_cs201x.c:344-368 | a transaction that keeps its LED legal and leaves the others alone shows four legal LEDs at every moment |
| `Cs2011.TransactionShows` | led/led_cs201x.c:344-368 | every state of a transaction shows the other LEDs and FLOW as they were, and its own LED in a mode and timing it can run, if it could before |
| `Cs2011.LastIsShown` | led/led_cs201x.c:344-359 | where a transaction arrived was shown, unless it did nothing |
| `Cs2011.RunnableMeans` | led/led_cs201x.c:258-265 | four LEDs are legal exactly when each reads back as something the controller can run |
| `Cs2011.AlwaysRunnableMeans` | led/led_cs201x.c:258-265 | the same of every state of a run |
| `Cs2011.LegalRunsCompose` | led/led_cs201x.c:369-580 | legal runs one after the other are one legal run |
| `Cs2011.Controller.Address` | led/led_cs201x.c:204-210 | success leaves exactly the wanted register latched and changes no register |
| `Cs2011.Controller.EcRead` | led/led_cs201x.c:211-215 | a successful read is the register's value |
| `Cs2011.Controller.EcWrite` | led/led_cs201x.c:336-339 | one value sent to one register, right after its guard: it lands or not, and nothing else changes |
| `Cs2011.Controller.CheckMachine` | led/led_cs201x.c:230-246 | refuses at any time with any error, and always during an outage |
| `Cs2011.Controller.CheckFlow` | led/led_cs201x.c:246-252 | FLOW must be readable, legal and as expected |
| `Cs2011.Controller.GuardFlow` | led/led_cs201x.c:223-257 | writes nothing; success means the expected FLOW, force and apply for writes, and a recorded guard; the driver is confirmed exactly by success, and never during an outage |
| `Cs2011.Controller.ReadTwice` | led/led_cs201x.c:271-276 | two equal legal reads are the LED's actual bytes |
| `Cs2011.Controller.Snapshot` | led/led_cs201x.c:266-278 | success returns the LED's actual legal bytes under FLOW 1; nothing is written |
| `Cs2011.Controller.CloseSnapshot` | led/led_cs201x.c:291-295 | the closing guard, after which the snapshot counts |
| `Cs2011.Controller.SnapshotAll` | led/led_cs201x.c:279-295 | success returns all 28 actual bytes, all legal, under the given FLOW |
| `Cs2011.Controller.ChangeFlow` | led/led_cs201x.c:296-307 | at most one FLOW write, only from the expected value; success means it was verified |
| `Cs2011.Controller.StoreByte` | led/led_cs201x.c:336-342 | success means that the byte was read back; at most that byte changes |
| `Cs2011.Controller.WriteByte` | led/led_cs201x.c:333-343 | at most the one LED byte changes; success means it holds the value |
| `Cs2011.Controller.WriteNext` | led/led_cs201x.c:351-356 | one turn of the writing loop keeps the LED midway between the old and the wanted bytes |
| `Cs2011.Controller.WriteFields` | led/led_cs201x.c:351-356 | the writing loop ends with the wanted bytes; under any faults only that LED changes, through legal states |
| `Cs2011.Controller.Commit` | led/led_cs201x.c:344-359 | success means the LED equals the wanted bytes; under any faults only that LED changes, and from a legal start every intermediate state is legal; during an outage nothing is written |
| `Cs2011.Controller.RestoreAfterError` | led/led_cs201x.c:360-368 | reporting "restored" means that the previous bytes are back |
| `Cs2011.Controller.CommitOrRestore` | led/led_cs201x.c:489-512 | all or restored, through legal states only |
| `Cs2011.Controller.Read` | led/led_cs201x.c:483-488 | a successful read decodes the LED's actual bytes; one refused in an outage leaves the driver unconfirmed |
| `Cs2011.Controller.Apply` | led/led_cs201x.c:489-512 | success: exactly the patched fields of exactly this LED changed; a failure not reported uncertain: the hardware is as before; succeeds for every legal request without faults; on a steady LED without faults a blink is accepted exactly from 100/100 ms and a breath exactly from 1000/500 ms |
| `Cs2011.Controller.BeginIdentify` | led/led_cs201x.c:513-527 | the saved bytes are those before the call, kept even when the blink failed and was rolled back; over a stuck red register it fails with the LED saved |
| `Cs2011.Controller.EndIdentify` | led/led_cs201x.c:528-540 | success puts the saved bytes back whatever was there; failure keeps them saved |
| `Cs2011.Controller.Identify` | led/led_cs201x.c:541-561 | success showed the identify pattern in between; success, or a failure not reported uncertain, leaves the hardware as before |
| `Cs2011.Controller.RestoreLeds` | led/led_cs201x.c:386-392 | success means that all 28 bytes are the baseline's under FLOW 1 |
| `Cs2011.Controller.RestoreBaseline` | led/led_cs201x.c:377-394 | success means baseline bytes and baseline FLOW; a FLOW that someone else returned is never retaken |
| `Cs2011.Controller.RestoreHolder` | led/led_cs201x.c:369-398 | from any hardware state, success means the captured 28 bytes and FLOW; legal states stay legal |
| `Cs2011.Controller.Inspect` | led/led_cs201x.c:415-436 | a holder starts only with force and apply, and over FLOW 0 only with takeover |
| `Cs2011.Controller.Capture` | led/led_cs201x.c:433-438 | success captured the actual 28 legal bytes and FLOW without writing |
| `Cs2011.Controller.TakeOver` | led/led_cs201x.c:438-456 | success holds FLOW 1 over the unchanged baseline; a failure reported restored is back at it; FLOW trace is a prefix of 1, 0 |
| `Cs2011.Controller.OpenHolder` | led/led_cs201x.c:408-457 | success captured the state before the call and holds FLOW 1; a failure not reported uncertain leaves the state before the call; FLOW trace is a prefix of 1, 0; legal LEDs stay legal when it succeeds or FLOW was not written |
| `Cs2011.Controller.TakeFlow` | led/led_cs201x.c:439-443 | success means that the takeover left all LEDs at the baseline |
| `Cs2011.Controller.RestoreClose` | led/led_cs201x.c:569-580 | success of a holder restores the baseline, of a plain context the identified LED |
| `Cs2011.RunCommand` | led/led_cs201x.c:483-540 | each command does what its outcome says: an acknowledged APPLY changes exactly the patched fields, BEGIN saves what was there, END puts it back, a failure not reported uncertain changes nothing, and when nothing fails a legal command succeeds |
| `Cs2011.ActedAppend` | led/led_cs201x.c:483-540 | one more command extends a life of commands |
| `Cs2011.ActedKeepsFlow` | led/led_cs201x.c:483-540 | no sequence of commands changes FLOW, unless another program does |
| `Cs2011.RunCommands` | led/led_cs201x.c:483-540 | every command is carried out, in order, as its outcome says; LEDs stay legal without foreign writes |
| `Cs2011.HolderLife` | led/led_cs201x.c:369-580 | open, all the commands in order with any faults, outages and foreign writes in between, close: each command did what its outcome says, starting from the LEDs of the open; reported success means LEDs and FLOW are as before the open; FLOW is written at most 1 then 0, never when it was 1; without faults both ends succeed; without foreign writes every LED reads back, at every moment from the open to the close, as a mode and timing the controller can run, also in a failed open that did not write FLOW |
| `LedWire.WordRoundTrip` | led/led_service.c:110-127 | network byte order loses no 32-bit word |
| `LedWire.KnownBytes` | led/led_service.c:110-127 | words go out highest byte first |
| `LedWire.FrameRoundTrip` | led/led_service.c:58-92 | a frame of words is received as sent |
| `LedWire.MaskOfWord` | led/led.h:124-132 | the bits of a field mask: mode, RGB, brightness, timing, colour, then unknown ones |
| `LedWire.MaskWord` | led/led.h:124-132 | and the word they make |
| `LedWire.PackedBits` | led/led_service.c:340-354 | the packed mask has exactly the given bits |
| `LedWire.FieldsRoundTrip` | led/led_service.c:190-203 | the field mask survives the wire, unknown bits included |
| `LedWire.ValueRoundTrip` | led/led_service.c:110-127 | a response's value survives the wire |
| `LedWire.PatchRoundTrip` | led/led_service.c:340-354 | the server decodes the client's patch, equal in every field but the zeroed unknown and cached masks, and still valid |
| `LedWire.KnownRequest` | led/led_service.c:340-354 | the words of an APPLY request, numbers and positions, in network byte order |
| `LedWire.ResponseRoundTrip` | led/led_service.c:205-208 | the client reads off the wire exactly the signed result, the confirmation and the value the server sent |
| `LedLink.StepKeepsPairing` | led/led_service.c:58-92 | every step, partial transfers and failures included, keeps the link paired |
| `LedLink.AcceptedResponsesAnswer` | led/led_service.c:242-274 | in every run the k-th accepted response is the server's answer to the k-th request, which it received byte for byte |
| `LedLink.ReusedConnectionMispairs` | led/led_service.c:251-257 | without the disconnect after a failed exchange, a late answer would pass for any later one |
| `LedLink.Session.Exchange` | led/led_service.c:242-274 | the connection survives exactly the trustworthy answers; a value is delivered only for a confirmed result 0 |
| `Connection.CourseStates` | led/led_service.c:129-213 | a recorded run that takes the session's steps goes through the session's states and gives its replies |
| `Connection.StopsThere` | led/led_service.c:129-213 | a recorded run that stopped where it had to is exactly as long as the session's |
| `Connection.CourseIsRun` | led/led_service.c:129-213 | recorded replies and final state are then those the inputs alone define |
| `Connection.VisitsAreRun` | led/led_service.c:472-486 | connections one after the other give the replies and the final session that their inputs define |
| `Connection.VisitsReply` | led/led_service.c:472-486 | the recorded replies of all connections are the session's own |
| `LedIdeal.NextStaysLegal` | led/led_service.c:144-203 | a session only holds, and shows, LED states that the controller can run |
| `LedIdeal.ReadsAndIdentifiesExactly` | led/led_service.c:148-189 | INFO, READ, BEGIN and END in the words of their frames: when each succeeds, and exactly what it answers and changes |
| `LedIdeal.UnacknowledgedChangesNothing` | led/led_service.c:158-192 | without both acknowledgements no write or identify is served |
| `LedIdeal.WritesExactly` | led/led_service.c:190-203 | APPLY in the words of its frame: accepted exactly when acknowledged, with no identify pending, known fields in range, and a mode and timing the LED can run |
| `LedIdeal.WriteShows` | led/led_service.c:190-203 | an accepted write shows the words of its frame in the fields of its mask, the old value in the others, and no other LED changes |
| `LedIdeal.UnconfirmedRefuses` | led/led_service.c:150 | while unconfirmed every request of a connection is answered with an error, and nothing changes |
| `LedIdeal.AllRefused` | led/led_service.c:150 | the same over any number of connections |
| `LedIdeal.SettledAppend` | led/led_service.c:190-203 | one more acknowledged write patches its own LED of the state that the earlier ones define |
| `LedIdeal.NextWrites` | led/led_service.c:190-203 | only an acknowledged APPLY changes the LEDs of a session, and by its patch |
| `LedIdeal.OnlyWritesRemain` | led/led_service.c:156-203 | identify leaves no trace: after any requests the LEDs of a session are what its acknowledged writes alone define |
| `LedServer.RanAppend` | led/led_service.c:129-213 | one more request, after a reply that did not end the connection, extends the run |
| `LedServer.TurnWrites` | led/led_service.c:190-203 | the books of acknowledged and uncertain writes change only as the reply says |
| `LedServer.RanProgress` | led/led_service.c:129-213 | over a whole run LEDs stay legal, FLOW stays, a healthy session stays healthy without faults, and the books hold exactly the acknowledged and the uncertain writes of its requests |
| `LedServer.RanThrough` | led/led_service.c:129-213 | every request of a run but the last was answered with something other than EPROTO, and the answer delivered |
| `LedServer.StoppedMeans` | led/led_service.c:129-213 | a request is left unread only after an answer that was undeliverable, EPROTO, or followed a failed restoration |
| `LedServer.RanIsCourse` | led/led_service.c:129-213 | a run in which nothing failed takes the ideal session's steps |
| `LedServer.RanAsIdeal` | led/led_service.c:129-213 | its replies and final state are the function of start and inputs that the ideal session defines |
| `LedServer.ConnectionEnds` | led/led_service.c:215-240 | unless restoring failed, an identify is left pending exactly when an undo was misread, and the driver is confirmed exactly if it was at the last request or an identify was pending; an unconfirmed driver is untouched |
| `LedServer.ConnectionAsIdeal` | led/led_service.c:215-240 | when nothing fails, or the driver is unconfirmed, every reply and the LEDs at the end are the ideal session's |
| `LedServer.MisreadRestoration` | led/led_service.c:166-181 | on any usable session: the red register of the LED is stuck, so BEGIN fails after the driver saved the LED; an outage then refuses the undo with ENOENT, and the session holds nothing and reports no failure while the driver keeps the LED reserved |
| `LedServer.MisreadExample` | led/led_service.c:166-240 | a whole run from a fresh machine that ends so: the connection ends without a reported failure and an identify stays reserved |
| `LedServer.WriteHolds` | led/led_service.c:190-203 | an acknowledged write keeps every certain LED at what the acknowledged writes define |
| `LedServer.ProgressComposes` | led/led_service.c:129-213 | what requests may do composes: legal LEDs, FLOW, health without faults, and refusal while unconfirmed |
| `LedServer.TurnMeans` | led/led_service.c:144-189 | on a healthy, confirmed session without faults, in the words of the frame: which INFO, READ, BEGIN and END succeed, and what they leave on the LEDs |
| `LedServer.Server.Begin` | led/led_service.c:166-181 | keeps session and driver in step; the LEDs with identify undone are unchanged, whatever earlier writes did; success means that the LED shows the identify pattern; succeeds on a healthy session without faults |
| `LedServer.Server.UndoBegin` | led/led_service.c:171-180 | the undo is misread exactly when an identify was pending and its restoration was refused with ENOENT; a failure is flagged exactly for every other error; the LEDs with identify undone are unchanged |
| `LedServer.Server.End` | led/led_service.c:182-189 | success returns all LEDs to what they were with identify undone; failure keeps the saved bytes |
| `LedServer.Server.Attempt` | led/led_service.c:197-201 | what the driver makes of a write: acknowledged, exactly the patched fields changed and the value is the LED's; without faults it is the ideal answer |
| `LedServer.Server.Book` | led/led_service.c:190-203 | the books after a write keep every certain LED at what the acknowledged writes define |
| `LedServer.Server.Patch` | led/led_service.c:197-201 | an acknowledged write changes exactly the patched fields of its LED; only its own LED may become uncertain; without faults the reply is the ideal session's |
| `LedServer.Server.Write` | led/led_service.c:190-203 | one APPLY: acknowledged only with confirmation and no pending identify, and then exactly the patched fields changed; a refused one leaves the hardware alone unless reported uncertain; without faults the reply is the ideal session's |
| `LedServer.Server.HandleRead` | led/led_service.c:153-155 | a served READ answers with the actual value; refused in an outage, it leaves the driver unconfirmed; without faults the reply is the ideal session's |
| `LedServer.Server.HandleIdentify` | led/led_service.c:156-189 | BEGIN and END with their refusals: the LEDs with identify undone are unchanged, a served BEGIN shows the pattern, a served END the LEDs without it; without faults reply and session are the ideal one's |
| `LedServer.Server.Respond` | led/led_service.c:144-203 | one turn of the session: what the ideal session would do, where nothing fails |
| `LedServer.Server.Handle` | led/led_service.c:144-203 | every request keeps the session invariant and is one turn; on a healthy, confirmed session without faults exactly the well-formed INFO, READ of LED 0 to 3, BEGIN of LED 0 to 3 with nothing pending and END of the pending LED succeed: the READ answers the LED's value, the BEGIN shows the identify pattern on that LED, the END the LEDs without it; a BEGIN, END or APPLY without both acknowledgements is an error and changes nothing, whatever the session |
| `LedServer.Server.HandleNext` | led/led_service.c:140-208 | the next request is answered and extends the run by one turn |
| `LedServer.Server.ServeRequests` | led/led_service.c:129-213 | one reply for each request read, in order; it stops only at the end of the inputs, at a disconnect, or after an undelivered, EPROTO or restore-failed reply; the invariant holds at every loop head |
| `LedServer.Server.Disconnect` | led/led_service.c:229-232 | a pending identify is undone and the driver confirmed again by that; unless it fails, one is left pending exactly when an undo was misread; without a pending one nothing changes |
| `LedServer.Server.ServeConnection` | led/led_service.c:215-240 | the requests are answered one by one up to where the loop must stop, then a pending identify is undone; each LED without an uncertain write holds what exactly the acknowledged requests asked for, as if no identify had run |
| `LedServer.ReadInOutage` | led/led_service.c:150 | one READ during an outage that then ends, and the disconnect: the driver is confirmed afterwards exactly if the connection held an identify |
| `LedServer.LockedOut` | led/led_service.c:150 | one READ during an outage on a connection without an identify: after the outage every request of every later connection is read and answered with an error, as the ideal unconfirmed session does |
| `LedServer.ConnectionServed` | led/led_service.c:215-240 | what one connection does to the driver, and that it is the ideal session's when nothing can differ |
| `LedServer.ChainAppend` | led/led_service.c:472-486 | one more connection extends the chain |
| `LedServer.ChainCarries` | led/led_service.c:472-486 | any number of connections keeps LEDs legal and FLOW unchanged, and leaves an unconfirmed driver alone |
| `LedServer.ChainVisits` | led/led_service.c:472-486 | without faults a chain visits the ideal session's states |
| `LedServer.ChainIsComplete` | led/led_service.c:472-486 | every connection of a chain was served as far as it could be |
| `LedServer.ChainAsIdeal` | led/led_service.c:472-486 | the replies of all connections are then the ideal ones |
| `LedServer.ServeNext` | led/led_service.c:472-486 | one connection on a fresh session |
| `LedServer.ServeEach` | led/led_service.c:472-486 | connections one after the other, all of them unless one reports a failed restoration |
| `LedServer.ServeAll` | led/led_service.c:472-486 | every connection is served as far as its inputs allow; LEDs stay legal and FLOW unchanged; without faults, or on an unconfirmed driver, none fails and every reply of every connection is the ideal session's |
| `LedServer.DaemonLife` | led/led_service.c:414-505 | over any connections and faults, reported success means that every connection was served and that LEDs and FLOW are as before the daemon started; while it serves and restores every LED reads back, at every moment, as a mode and timing the controller can run; without faults an allowed start ends in success with the ideal replies to every request |
| `LedSession.ReplyRead` | led/led_service.c:205-208 | the client reads off a reply a value exactly for a confirmed success, and it is the one the server sent |
| `LedSession.RequestCarries` | led/led_service.c:340-354 | the server's patch asks for the same bytes as the client's |
| `LedSession.StepKeepsUnderway` | led/led_service.c:58-92 | no transfer step loses or repeats the request |
| `LedSession.ServedIsTheRequest` | led/led_service.c:142-146 | the frame the server completes is the client's request, once |
| `LedSession.ShadowFollows` | led/led_service.c:58-92 | the course of the transfers does not depend on the bytes of the answer |
| `LedSession.WholeTransfersFinish` | led/led_service.c:242-250 | four whole transfers complete an exchange |
| `LedSession.AnswerFrame` | led/led_service.c:140-208 | an acknowledged APPLY left the LED with exactly the patch and replies with its value; served whenever it must be and nothing fails |
| `LedSession.Receive` | led/led_service.c:242-274 | a value exactly for a complete, confirmed and successful reply; otherwise the connection is given up or the answer is an error |
| `LedSession.ApplyOverHolder` | led/led_service.c:340-354 | for every schedule of transfers and failures, a client that gets a value has the LED hold exactly its patch, the other LEDs unchanged, and that value shown; whether the exchange completes depends on the schedule alone, and if it does and nothing fails, a request that must be served gives a value |
| `FanCurve.InterpolateMonotone` | fan/thermal_curve.c:791-803 | interpolation stays between its points, meets them at the ends and never falls, in spite of integer division |
| `FanCurve.InterpolateFollowsLine` | fan/thermal_curve.c:791-803 | interpolation is the line through its points, rounded down |
| `FanCurve.EvaluateInSegment` | fan/thermal_curve.c:805-825 | each segment stays within its points and the thresholds are met exactly |
| `FanCurve.EvaluateFollowsCurve` | fan/thermal_curve.c:805-825 | the whole curve: idle up to the start, the maximum PWM from the maximum on, and the three lines in between |
| `FanCurve.EvaluateMonotone` | fan/thermal_curve.c:805-825 | a hotter source never asks for less, across all segment boundaries |
| `FanCurve.CpuFloorFollowsLine` | fan/thermal_curve.c:832-847 | the CPU floor: nothing below its start, its end PWM from its end on, the line in between |
| `FanCurve.CpuFloorMonotone` | fan/thermal_curve.c:832-847 | the CPU floor never falls, its jump at the start included |
| `FanCurve.WithSourceMonotone` | fan/thermal_curve.c:882-891 | adding a source keeps order and range, also when a sensor appears |
| `FanCurve.SystemTargetMonotone` | fan/thermal_curve.c:881-892 | the system target never falls as any temperature rises |
| `FanCurve.PlanBoundedAndMonotone` | fan/thermal_curve.c:855-901 | for every valid configuration and snapshot both PWMs lie in [minimum, 255], and neither falls as any measured temperature rises |
| `FanCurve.FailsafeExactlyWithoutReadings` | fan/thermal_curve.c:849-880 | both channels run at the failsafe PWM without a CPU reading, or without a storage reading where one is required; the CPU temperature is the hottest core's where known |
| `FanCurve.CpuChannelFollowsCurve` | fan/thermal_curve.c:893-899 | under a stock profile the CPU PWM is the CPU curve's value or the minimum, and max(curve maximum, minimum) at or above the last threshold; under a custom profile it is the system PWM |
| `FanCurve.PlanCoversEverySource` | fan/thermal_curve.c:881-899 | the system PWM is at least what every enabled source asks for, and equal to one of them or the minimum |
| `FanCurve.StockProfilesLoad` | fan/thermal_curve.c:541-604 | a stock profile validates exactly when the user's timing and failsafe are in range |
| `FanCurve.Stock4600Plans` | fan/thermal_curve.c:548-556 | the plans of this profile at all its thresholds, CPU alone and with each kind of disk |
| `FanCurve.Stock4800Plans` | fan/thermal_curve.c:557-562 | the plans of this profile at all its thresholds, CPU alone and with each kind of disk |
| `FanCurve.Stock4800sPlans` | fan/thermal_curve.c:563-568 | the plans of this profile at all its thresholds, CPU alone and with each kind of disk |
| `FanCurve.Stock4800plusPlans` | fan/thermal_curve.c:569-579 | the plans of this profile at all its thresholds, CPU alone and with each kind of disk |
| `FanCurve.Stock480tplusPlans` | fan/thermal_curve.c:580-588 | the plans of this profile at all its thresholds, CPU alone and with each kind of disk |
| `FanCurve.Stock6800Plans` | fan/thermal_curve.c:589-602 | the plans of this profile at all its thresholds, CPU alone and with each kind of disk |
| `FanCurve.StockPlansBetween` | tests/test_thermal_curve.c:113-146 | plans at readings between the thresholds |
| `FanDaemon.HeldExactlyWithinDelay` | core/fan_daemon.c:302-310 | a pending downshift is held exactly while the clock reads between its start and the end of the delay |
| `FanDaemon.WantsItsChannel` | core/fan_daemon.c:285-290 | a CPU target wants the CPU PWM, any other the system PWM, and all the failsafe PWM after a failed or insufficient reading; a stock CPU fan wants at least its curve's maximum at the last threshold |
| `FanDaemon.ClockSetBackEndsHold` | core/fan_daemon.c:302-310 | the concrete early downshift |
| `FanDaemon.TurnPending` | core/fan_daemon.c:297-306 | a turn leaves nothing pending, or what it wanted since now or since it was first wanted |
| `FanDaemon.PendingContinues` | core/fan_daemon.c:297-306 | one more turn leaves pending what was, without a break, or what is wanted from now on |
| `FanDaemon.WantedTurn` | core/fan_daemon.c:292-311 | a turn that wants less than stays applied leaves that wish pending |
| `FanDaemon.PendingIsUnbroken` | core/fan_daemon.c:292-311 | a pending downshift was first wanted at its recorded time and nothing else was wanted since |
| `FanDaemon.WantedIsPending` | core/fan_daemon.c:292-311 | a lower PWM wanted without interruption is pending since no later than it was first wanted |
| `FanDaemon.DownshiftExactlyAfterDelay` | core/fan_daemon.c:292-311 | over every run with a monotone clock, a working write lowers the PWM exactly when that value was wanted without interruption for the delay |
| `FanDaemon.AppliedStaysInRange` | core/fan_daemon.c:413-424 | only wanted PWMs are ever applied, and a working write leaves the target at least as fast as wanted |
| `FanDaemon.HistoriesInRange` | core/fan_daemon.c:394-424 | over every run each target wants only PWMs in [minimum, 255] |
| `FanDaemon.HistoriesMonotone` | core/fan_daemon.c:394-424 | with a clock that never goes back each target's evaluations are in time order, skipped rounds included |
| `FanDaemon.RunsObeyDownshiftLaw` | core/fan_daemon.c:394-424 | the downshift law holds of every evaluation of every target of every run whose clock never goes back |
| `FanDaemon.Daemon.constructor` | core/fan_daemon.c:341 | all targets start unknown |
| `FanDaemon.Daemon.ServeTarget` | core/fan_daemon.c:413-423 | one target's turn extends its history by one evaluation; it fails exactly when a write was due and failed, and success leaves the target at least as fast as wanted |
| `FanDaemon.Daemon.Iterate` | core/fan_daemon.c:394-424 | exactly the targets before the first failed write, and the failing one, are evaluated; if none fails every target is at least as fast as its plan |
| `FanDaemon.RunDaemon` | core/fan_daemon.c:394-424 | every target has gone through exactly the evaluations the rounds define; its PWM lies in [minimum, 255], the downshift law holds of each evaluation when the clock never goes back, and after a round whose writes all worked every target runs at least as fast as its channel's plan |
| `DiskPorts.MaskTest` | disk/disk.c:888-889 | a bit of the mask is set exactly when its port was seen |
| `DiskPorts.MaskSet` | disk/disk.c:890 | setting a bit adds exactly that port |
| `DiskPorts.TrackEntry` | disk/disk.c:876-891 | each entry either extends a sound listing or rules the wanted count out for good |
| `DiskPorts.CountPort` | disk/disk.c:887-890 | a port out of range or seen before refutes the listing; otherwise mask and count stay right |
| `DiskPorts.CountEntry` | disk/disk.c:876-891 | one more entry is counted, passed over, or rules the wanted count out |
| `DiskPorts.ScanPorts` | disk/disk.c:876-891 | stops only when the listing cannot be complete |
| `DiskPorts.CompleteByCount` | disk/disk.c:893 | when the scan went through, the ports are complete exactly if all were counted, and then the mask is full |
| `DiskPorts.ControllerPorts` | disk/disk.c:853-894 | accepts exactly AHCI controllers whose ports are a permutation of 1..n |
| `DiskPorts.OnlyOneCount` | disk/disk.c:1114-1116 | at most one port count fits a listing |
| `DiskPorts.NumbersCount` | disk/disk.c:876-891 | the multiset of port numbers counts each numbered entry |
| `DiskPorts.CompleteMeans` | disk/disk.c:876-893 | complete listings name each of the ports 1 to n exactly once, and nothing is broken |
| `DiskPorts.CompleteInAnyOrder` | disk/disk.c:876-891 | the verdict does not depend on directory order |
| `DiskAta.FindPortCount` | disk/disk.c:1114-1116 | trying 1 to 8 finds the only complete count, or 0 when there is none |
| `DiskAta.CollectOne` | disk/disk.c:1098-1121 | one device is collected, passed over, or refutes the whole inventory |
| `DiskAta.Collect` | disk/disk.c:1097-1121 | succeeds exactly on usable inventories with at most four controllers, and returns them |
| `DiskAta.RoleIsMutual` | disk/disk.c:1143-1164 | recognition is symmetric between two controllers and does not depend on their order |
| `DiskAta.IndexOfPresent` | disk/disk.c:1134-1170 | a present port gets its controller's base plus the port, within the expected bays |
| `DiskAta.IndexIsInjective` | disk/disk.c:1134-1170 | distinct (controller, port) pairs get distinct indices in 1..expected |
| `DiskAta.IndexIsOnto` | disk/disk.c:1134-1170 | every bay index belongs to some present port |
| `DiskAta.NoIndexOtherwise` | disk/disk.c:1122-1170 | a foreign controller or an unrecognized layout gives no bay |
| `DiskAta.IndexInAnyOrder` | disk/disk.c:1134-1170 | the index is the same for every order of the controllers |
| `DiskAta.PortCountInAnyOrder` | disk/disk.c:1114-1116 | the port count is the same for every order of the directory |
| `DiskAta.CollectableByClass` | disk/disk.c:1097-1121 | what each device contributes decides whether the inventory is usable |
| `DiskAta.RelistedSameClass` | disk/disk.c:1114-1116 | a device contributes the same however its ports are listed |
| `DiskAta.IndexByClass` | disk/disk.c:1064-1171 | inventories with the same contributions give every disk the same index |
| `DiskAta.FirmwareIndexInAnyOrder` | disk/disk.c:1064-1171 | a disk gets the same index whatever the orders of bus/pci/devices and class/ata_port, both reordered together |
| `DiskAta.CountOfPorts` | disk/disk.c:1114-1116 | a complete listing of n ports makes a controller of n ports |
| `DiskAta.IntelThenAsmedia` | disk/disk.c:1143-1156 | from the raw devices, four or six bays: Intel port p is bay p, ASMedia port p is bay 2 + p, at whatever addresses and in whatever order |
| `DiskAta.BridgeDecides` | disk/disk.c:1157-1164 | from the raw devices, eight bays: port p under 51bc is bay p, port p under 51be bay 4 + p |
| `DiskAta.LoneController` | disk/disk.c:1138-1142 | from the raw devices, a lone factory controller's port p is bay p |
| `DiskAta.RecognizedExactly` | disk/disk.c:1134-1166 | these are all the layouts in which a port has a bay |
| `DiskAta.FirmwareAtaIndex` | disk/disk.c:1064-1171 | the loops compute exactly the order-independent index of the inventory |
| `DiskModel.LessTransitive` | disk/disk.c:1408 | name order is transitive |
| `DiskModel.LessTotal` | disk/disk.c:1408 | name order is total and strict |
| `DiskModel.LessExactly` | disk/disk.c:1408 | names are compared byte by byte: the first difference decides, and a prefix comes first |
| `DiskModel.ElementsSize` | disk/disk.c:1343-1381 | a list has as many members as positions exactly when nothing repeats |
| `DiskModel.FlatConcat` | disk/disk.c:1490-1604 | what a directory contributes is what its parts contribute |
| `DiskModel.FlatInAnyOrder` | disk/disk.c:1490-1604 | a reordered directory contributes the same, up to order |
| `DiskModel.SameMembers` | disk/disk.c:1390-1414 | lists without repeats and with the same members are reorderings of each other |
| `DiskInventory.Pigeonhole` | disk/disk.c:1365-1378 | membership, no repeats and equal counts give equal sets and force distinct records |
| `DiskInventory.FindMember` | disk/disk.c:1365-1367 | finds the first position of a name |
| `DiskInventory.MarkedIffFound` | disk/disk.c:1365-1372 | a first position is marked exactly when the name was found before |
| `DiskInventory.BadCandidate` | disk/disk.c:1365-1370 | a candidate that is no member, or was found before, makes the sets differ for good |
| `DiskInventory.TooManyOrLong` | disk/disk.c:1359-1364 | so does a candidate that is too long, or one too many |
| `DiskInventory.TakeCandidate` | disk/disk.c:1359-1372 | one candidate: marked, or refuting the inventory |
| `DiskInventory.CountDecides` | disk/disk.c:1374-1380 | at the end the count decides |
| `DiskInventory.VerifyMemberSet` | disk/disk.c:1343-1381 | accepts exactly when the re-read candidates are the recorded members in any order, distinct on both sides |
| `DiskNamespaces.ConsistentMeans` | disk/disk.c:1400-1405 | pairwise agreement follows from agreement with the earlier namespaces |
| `DiskNamespaces.PairwiseConsistent` | disk/disk.c:1400-1405 | pairwise agreement makes the whole inventory acceptable |
| `DiskNamespaces.ConsistentExactly` | disk/disk.c:1399-1405 | an inventory is accepted exactly when any two namespaces of one controller agree in PCI address, serial, interface, mapping, slot, slot name and LED |
| `DiskNamespaces.GroupsAreLeast` | disk/disk.c:1390-1414 | one group per controller, represented by the least name, and every controller has one |
| `DiskNamespaces.SataDisksStay` | disk/disk.c:1390-1414 | disks without a controller all stay, in order |
| `DiskNamespaces.GroupsAreExactlyTheLeast` | disk/disk.c:1390-1414 | the disks that remain are exactly those that no namespace of their controller undercuts |
| `DiskNamespaces.GroupsInAnyOrder` | disk/disk.c:1390-1414 | the same disks remain for every order of the directory |
| `DiskNamespaces.ConsistentInAnyOrder` | disk/disk.c:1400-1405 | a reordered inventory is refused exactly when the original is |
| `DiskNamespaces.CheckDecides` | disk/disk.c:1399-1405 | comparing with the representative decides agreement with the whole group |
| `DiskNamespaces.ConsistentNext` | disk/disk.c:1399-1405 | one more disk keeps the inventory acceptable exactly if it agrees with its group |
| `DiskNamespaces.FindGroup` | disk/disk.c:1395-1397 | the search returns the controller's group, or their number |
| `DiskNamespaces.PlaceDisk` | disk/disk.c:1391-1414 | one in-place step adds the disk to the groups without losing unread entries |
| `DiskNamespaces.NameAliases` | disk/disk.c:1422-1424 | each namespace's alias names its controller's final representative |
| `DiskNamespaces.GroupInPlace` | disk/disk.c:1387-1421 | the first loop computes the grouping in place, or fails exactly on disagreement |
| `DiskNamespaces.Coalesce` | disk/disk.c:1383-1427 | fails exactly when namespaces of one controller disagree; otherwise the array holds the groups and every namespace is one alias of its representative |
| `DiskConflicts.MappingIsShaped` | disk/disk.c:1518-1600 | after calibration, firmware rules and LED records, a disk's slot name and LED follow from its slot number, or it claims nothing |
| `DiskConflicts.MappingMeans` | disk/disk.c:1518-1600 | which slot, slot name and LED a disk gets from its assigned slot, its matching rules and the LED record, and when it gets none |
| `DiskConflicts.ClearedMeans` | disk/disk.c:1671-1705 | a disk keeps its mapping exactly when no other disk shares its topology, slot name or LED and its U.2 bay is not in doubt |
| `DiskConflicts.FindConflicts` | disk/disk.c:1671-1691 | marks exactly the disks with some clash, three-way clashes included, and the ambiguous U.2 bays |
| `DiskConflicts.ClearConflicts` | disk/disk.c:1671-1705 | exactly the losing disks give up all claims; the others are untouched |
| `DiskConflicts.ClearedIsExclusive` | disk/disk.c:1683-1705 | no two mapped disks share a slot name, LED or topology, and a disk without conflict keeps its mapping |
| `DiskConflicts.LosesInAnyOrder` | disk/disk.c:1671-1691 | losing does not depend on the order of the disks |
| `DiskResolve.DecimalRoundTrip` | disk/disk.c:65-77 | a printed slot number is parsed back |
| `DiskResolve.Resolve` | disk/disk.c:92-155 | names a disk exactly when it is the only match, with each refusal's exact cause; finds the only disk of a bay |
| `DiskResolve.BaySelectors` | disk/disk.c:79-90 | diskN and slotN name bay N for 1 to 8 |
| `DiskResolve.BaySelects` | disk/disk.c:109-110 | diskN and slotN select exactly the SATA and U.2 disks mapped to bay N |
| `DiskResolve.AliasSelects` | disk/disk.c:122-136 | an alias matches by name, /dev path or WWN |
| `DiskResolve.CarrierSelects` | disk/disk.c:111-136 | every other selector selects exactly the disks that carry it, as NVMe slot name, name, device, bare or prefixed serial, prefixed WWN, or through a namespace alias |
| `DiskResolve.OnlyCarrierIsFound` | disk/disk.c:137-155 | the only disk a selector selects is its answer, or the named cause of refusal |
| `DiskResolve.BayIsFound` | disk/disk.c:105-155 | the only SATA or U.2 disk of bay N that has an LED is what diskN and slotN resolve to |
| `DiskResolve.FindMatch` | disk/disk.c:92-155 | names a disk exactly when it is the only match, with each refusal's exact cause |
| `DiskResolve.BaySelectorIsExclusive` | disk/disk.c:105-110 | a bay selector matches at most one disk, the only owner of that LED |
| `DiskResolve.BayIsUnambiguous` | disk/disk.c:105-110 | among cleared disks a bay selector never matches two |
| `DiskResolve.BayIsOwned` | disk/disk.c:1683-1705 | the disk it finds lost nothing in the conflict pass and owns the bay's LED alone |
| `DiskResolve.LocateBay` | disk/disk.c:92-155 | conflict pass then resolution: never ambiguous, and a resolved disk is the exclusive, unchanged owner of that bay's LED |
| `DiskScan.Enumerate` | disk/disk.c:1490-1604 | refuses exactly when the members cannot all be recorded; otherwise the lists hold every candidate and every readable disk with its mapping |
| `DiskScan.Recheck` | disk/disk.c:1611-1625 | passes exactly when every disk is read again with the same serial, WWN, topology and controller |
| `DiskScan.ItemsAreNamed` | disk/disk.c:1513-1648 | every enumerated disk has its entry's name and claims that follow from its slot, also after a changed topology took them away, and no two have one name |
| `DiskScan.GroupsStayDistinct` | disk/disk.c:1383-1427 | coalescing keeps only enumerated disks, and their names distinct |
| `DiskScan.SortMembers` | disk/disk.c:1706 | sorting keeps the disks |
| `DiskScan.SortOrders` | disk/disk.c:1706 | and puts them in name order |
| `DiskScan.ByNameIsUnique` | disk/disk.c:1706 | there is only one list in name order |
| `DiskScan.OutcomeIsSound` | disk/disk.c:1611-1708 | the disks of an accepted scan are in name order and no two mapped ones share a slot, an LED or a topology |
| `DiskScan.Settle` | disk/disk.c:1662-1705 | coalescing and the conflict pass on the scan's arrays: fails exactly on inconsistent namespaces, otherwise leaves the groups with exactly the losing disks unmapped |
| `DiskScan.Scan` | disk/disk.c:1429-1708 | a whole scan fails exactly when the directory cannot be listed or its members recorded, a disk changed meanwhile, the directory read again does not name exactly the members, or namespaces of one controller disagree; otherwise it ends with exclusive bays |
| `DiskScan.AcceptsInAnyOrder` | disk/disk.c:1662-1669 | a reordered directory is accepted exactly when the original is |
| `DiskScan.PhysicalInAnyOrder` | disk/disk.c:1383-1427 | the same physical disks remain |
| `DiskScan.OutcomeInAnyOrder` | disk/disk.c:1429-1708 | an accepted scan ends with the same list of disks for every order of the directory |
| `DiskScan.AliasesInAnyOrder` | disk/disk.c:1422-1424 | and with the same set of aliases |
| `DiskScan.LocatedInAnyOrder` | disk/disk.c:92-155 | so a selector has one answer, for every order of the directory |
| `DiskScan.LoneDiskIsFound` | disk/disk.c:1429-1708 | a directory with one disk in bay n: its scan ends with that disk, mapped, alone in the bay and with the bay's LED |
| `DiskScan.BayHasOneOwner` | disk/disk.c:92-155 | among exclusive disks a bay selector is never ambiguous, and the disk it resolves to owns the LED of that bay alone |
| `DiskScan.Locate` | disk/disk.c:92-155 | scan and selector together: answered exactly when the scan is accepted; a bay selector is never ambiguous, resolves to the one owner of the bay's LED, and finds the only disk of the bay |
| `LedFrame.Checksum` | led/led_protocol.c:10-16 | the loop computes the sum of the bytes |
| `LedFrame.StatusRoundTrip` | led/led_protocol.c:18-36 | a status frame decodes to the LED's value exactly when its state is decodable |
| `LedFrame.CorruptionIsNoticed` | led/led_protocol.c:18-36 | any single corrupted byte is rejected |
| `LedFrame.CommandRoundTrip` | led/led_protocol.c:38-81 | on each wire protocol the command sent is the command received |
| `LedFrame.KnownStatus` | tests/test_led.c:190-198 | a published status frame |
| `LedFrame.KnownCommand` | tests/test_led.c:192-200 | a colour command byte by byte on each protocol |
| `Mcu.PartCommandSets` | led/led.c:746-777 | each command sets just its part, keeps the LED readable, and a readback that already matches means it would change nothing |
| `Mcu.PatchedShows` | led/led.c:844-891 | patched fields read back as requested, all others as before |
| `Mcu.RgbAccepts` | led/led_protocol.c:83-169 | exactly the patches an RGB LED takes |
| `Mcu.Session.Authorize` | led/led.c:706-744 | no write without apply, and without force on experimental models |
| `Mcu.Session.Read` | led/led.c:660-704 | a successful read is the LED's value; three attempts, stopping early on refusals |
| `Mcu.Session.Change` | led/led.c:746-777 | success means the part was set, under any lost, corrupted or failed transfer |
| `Mcu.Session.ChangeIf` | led/led.c:850-881 | a field the patch does not have is left alone |
| `Mcu.Session.ChangeAll` | led/led.c:850-881 | one command for each part of the patch |
| `Mcu.Session.Blink` | led/led.c:950-956 | the blink of identify is shown, or was there already |
| `Mcu.Session.Apply` | led/led.c:844-891 | success means exactly the patched state; without faults every valid patch succeeds; no other LED changes; nothing is written without apply, nor without force on experimental models |
| `Mcu.Session.Restore` | led/led.c:966-987 | success means the complete saved state, dormant timing of steady modes included |
| `Mcu.Session.Identify` | led/led.c:931-989 | success showed an orange blink, 250 ms on and off at full brightness; success, or a failure reported after restoring, leaves every LED as before; without faults it always succeeds; without the flags nothing is written |
| `N76.Buffer.Append` | led/led_n76_protocol.c:16-22 | one more entry at the end, the rest unchanged |
| `N76.MakePlan` | led/led_n76_protocol.c:24-96 | accepts exactly the plannable requests, and the plan fits the 12-entry array |
| `N76.PlannableExactly` | led/led_n76_protocol.c:39-60 | exactly the plannable requests, field by field, of both models |
| `N76.KnownPlans` | tests/test_led_n76.c:85-140 | plans as register writes, for each LED |
| `N76.Build` | led/led_n76_protocol.c:68-89 | the appending code builds the specified commands within the array |
| `N76.PlannableIsEncodable` | led/led_n76_protocol.c:42-60 | the checks leave only values that fit their registers |
| `N76.RunConcat` | led/led_n76_protocol.c:68-89 | running two command lists in a row is running them together |
| `N76.LedsAreSeparate` | led/led_n76_protocol.c:63-65 | no register and no output bit belongs to two LEDs |
| `N76.StopEffect` | led/led_n76_protocol.c:68-70 | both effects stop and exactly the LED's two outputs go dark |
| `N76.TimingEffect` | led/led_n76_protocol.c:72-78 | 16-bit timings are split without loss, in four registers of the LED |
| `N76.ColorEffect` | led/led_n76_protocol.c:83 | exactly the colour's bits of this LED are set |
| `N76.CommandsAchieveOutputs` | led/led_n76_protocol.c:68-89 | from any state the LED's outputs end as requested and no other bit changes |
| `N76.CommandsAchieveRegisters` | led/led_n76_protocol.c:68-89 | modes, timing and brightness end as requested and no other LED's register changes |
| `N76.PlanAchieves` | led/led_n76_protocol.c:24-96 | every accepted plan, run from any register file, does what was asked and nothing else |
| `N76Session.CommandsAreLocal` | led/led_n76_protocol.c:68-89 | each single command stays within its LED, so a plan cut short does too |
| `N76Session.Session.ReadModes` | led/led.c:677-694 | a successful read is the two mode registers |
| `N76Session.Session.SendAll` | led/led.c:818-830 | under any faults no other LED is touched; without faults the whole plan ran |
| `N76Session.Session.Carry` | led/led.c:812-840 | an accepted plan: sent under any faults without touching other LEDs, verified by its modes, fully carried out without faults |
| `N76Session.Session.Apply` | led/led.c:807-840 | success means the planned modes were read back; a failure after the first write closes the session to all further writes; nothing is written without permission; without faults outputs, modes and timing are as requested |
| `LedRequest.ActionShows` | core/hardware_cli.c:542-575 | each action changes just what it names, colours as palette or RGB exactly by the LED's kind |
| `LedRequest.PercentIsNearest` | core/hardware_cli.c:562-566 | a brightness percentage becomes the nearest level the LED has, with 0 and 100 exact |
| `LedRequest.MergedPatch` | core/hardware_cli.c:602-624 | the loop computes the last-writer-wins fold |
| `LedRequest.MergeShowsTheSame` | core/hardware_cli.c:602-624 | the merged patch has the visible effect of the actions in order, and never two colours |
| `LedRequest.MergedIsSound` | core/hardware_cli.c:602-624 | which fields a merge of valid actions carries, and when its timing lacks an effect |
| `LedRequest.MergeIsValidUnlessCancelled` | led/led_protocol.c:83-121 | valid actions merge into a valid patch exactly when no later steady mode cancels an effect |
| `LedRequest.CancelledEffectIsRefused` | core/hardware_cli.c:602-624 | blink then on: valid one by one, invalid merged |
| `LedRequest.OneModeIsNeverCancelled` | core/hardware_cli.c:254-262 | with at most one mode option no effect is cancelled |
| `LedRequest.EveryPairOnce` | core/hardware_cli.c:913-920 | every (action, target) pair has a step |
| `LedRequest.EveryPositionIsAPair` | core/hardware_cli.c:913-920 | every step is a pair, and no two steps are the same pair |
| `LedRequest.ActionsStayInOrder` | core/hardware_cli.c:913-920 | in both schedules each target gets its actions in order |
| `LedRequest.ScheduleOrder` | core/hardware_cli.c:916-919 | the compatible tool finishes a target before the next; otherwise an action reaches all targets before the next action |
| `LedRequest.N76PatchLeaves` | led/led_protocol.c:184-201 | the N76 checks accept exactly the patches that leave a known mode, steady unless asked otherwise, a lit or blinking LED in a known fitting colour, and no misread brightness |
| `LedRequest.ForeseenOnN76` | led/led_sysfs.c:302-323 | the preflight on the N76 driver: state checks, binding, and the trigger of the mode that results |
| `LedRequest.GpioAccepts` | models/led_profiles.c:25-31 | exactly the patches a GPIO LED takes |
| `LedRequest.ValidateAll` | core/hardware_cli.c:836-851 | passes exactly when every planned patch is valid for its target and plannable when an N76 is driven directly |
| `LedRequest.PreflightNext` | core/hardware_cli.c:869-889 | one action is checked on the predicted state, and the prediction moved on |
| `LedRequest.PreflightTarget` | core/hardware_cli.c:867-891 | passes exactly when each action of the target is foreseen to be accepted in the state that the actions before it are predicted to leave |
| `LedRequest.PreflightAll` | core/hardware_cli.c:863-891 | passes exactly when every target reads and every planned write is foreseen on its predicted state |
| `LedRequest.ConfirmedExactly` | core/hardware_cli.c:852-854 | force is needed exactly to write to an experimental model |
| `LedRequest.Admit` | core/hardware_cli.c:836-892 | passes exactly when every patch is valid, an experimental write is forced and, if a session is needed, it opens, every target reads and every write is foreseen |
| `LedRequest.TakeStep` | core/hardware_cli.c:920-936 | a read, a write after its own check on the state it meets, or nothing in a preview; refused before the write or failed, exactly as check and machine say |
| `LedRequest.RunSchedule` | core/hardware_cli.c:913-936 | the writes made are those of the schedule up to the first step that is refused or fails, and it stops early exactly there |
| `LedRequest.DoneInOrder` | core/hardware_cli.c:913-920 | what a target has been through before a step is a prefix of its actions |
| `LedRequest.TurnOf` | core/hardware_cli.c:913-920 | in both schedules a target is at action a when its step for a comes |
| `LedRequest.ShownAsPlanned` | core/hardware_cli.c:883-889 | the prediction is the state each write meets: undisturbed, every target shows at each step the mode and colour, known or not, that the preflight predicted |
| `LedRequest.NothingIsRefused` | led/led_sysfs.c:302-323 | so no later write of a preflighted request is refused for the state it meets |
| `LedRequest.MetAsRead` | core/hardware_cli.c:863-866 | a merged request meets each target as it was read |
| `LedRequest.RefusedFirstOrNever` | led/led_gpio.c:346-360 | a GPIO request that passes its first write is refused at none |
| `LedRequest.RefusedExactlyWhenDarkened` | led/led_gpio.c:353-360 | after a preflight every write of a GPIO request is accepted exactly unless the merged request sets a colour and darkens the LED |
| `LedRequest.DarkColorIsNotForeseen` | core/hardware_cli.c:874-882 | a lit GPIO LED asked to take a colour and go dark passes the preflight and is refused |
| `LedRequest.NeverRefused` | core/hardware_cli.c:913-936 | over whole runs: a preflighted request is never stopped by the state of an LED |
| `LedRequest.RefusedAtOnce` | core/hardware_cli.c:913-936 | on GPIO, it is stopped before its first write or not at all |
| `LedRequest.RunSession` | core/hardware_cli.c:913-936 | an admitted request runs the schedule; only a disturbed N76 can be refused a later write, and GPIO refuses before the first write or not at all; a preview writes nothing |
| `LedRequest.Execute` | core/hardware_cli.c:836-936 | a request is rejected exactly when a patch is invalid, an experimental write is not forced, or the session does not open, a target does not read or a write is not foreseen; otherwise it runs the schedule; once undisturbed writes have begun no state check stops it; a preview writes nothing; without force nothing is written to an experimental model |
| `LedRequest.PreviewWritesNothing` | core/hardware_cli.c:926-932 | without apply the schedule holds no write |
| `Identity.SplitPacks` | core/identity.c:49-70 | splitting the raw property loses nothing |
| `Identity.PackSplits` | core/identity.c:49-70 | a packed list splits into its entries |
| `Identity.KnownList` | core/identity.c:49-70 | the bytes an entry may have, and a list packed and joined |
| `Identity.CapacityNeverRefuses` | core/identity.c:49-63 | with 512-byte buffers the capacity check refuses no legal list |
| `Identity.AcceptedIffPacked` | core/identity.c:49-70 | a packed list is accepted exactly when all its entries are legal |
| `Identity.TakeEntry` | core/identity.c:62-66 | an empty or too long entry refuses the whole list; otherwise the entry is joined |
| `Identity.CompatibleRead` | core/identity.c:49-70 | accepts exactly the NUL-terminated lists of legal entries that fit, writes their join, and never leaves its buffer |
| `Identity.TokensShift` | core/identity.c:122-126 | what stands before a bar does not matter to the tokens after it |
| `Identity.TokensOfJoin` | core/identity.c:115-128 | the tokens of the joined text are exactly the entries |
| `Identity.HasCompatible` | core/identity.c:115-128 | true exactly of the nonempty tokens of the text |
| `Identity.ReadThenLookUp` | core/identity.c:49-128 | accepts exactly the packed lists of legal entries, and then a lookup succeeds exactly for the original entries |

## Left out

- The Super-I/O configuration sequence, chip probe, runtime base, locks, port permission and the machine and owner checks of the CS2011 driver: one check that may refuse at any time with any error.
- Opening a plain (non-holder) CS2011 context, `ugreenctl_led_cs201x_close` and the client process id: forwarding around modelled operations.
- Error texts; the distinction they carry about what happened to the hardware (untouched, restored, uncertain) is part of every outcome.
- Cs2011.Controller.OpenHolder: states legality of every intermediate state only when the open succeeds or FLOW was not written, because a FLOW takeover that fails may itself have disturbed LED registers.
- CsBoard.Board.WriteAddress: an accepted address byte is never lost; if it were, the data byte would go to another register and no driver property would hold.
- Foreign register writes in the middle of a driver operation; between operations they are allowed (`Cs2011.HolderLife`).
- LedLink.Session.Exchange: the two ends and their socket are one state machine on values, so buffers are not updated in place; poll, deadlines and clocks appear only as failures that may happen at any step.
- Socket setup, peer credentials and stale-socket cleanup of the LED holder, and its GPIO backend.
- The client side of identify over the holder (led/led_service.c:361-395): two exchanges around a pause.
- Sensor discovery, SMART reading, configuration file parsing, the state file, `applied_channels` and the forked PWM writer of the fan daemon: readings and write outcomes are inputs.
- FanDaemon.DownshiftExactlyAfterDelay: assumes a clock that is never set back, because the property is false otherwise (see `FanDaemon.HeldExactlyWithinDelay`).
- LedServer.ConnectionEnds: an identify may be left pending without a reported failure when an undo is misread, because the property is false then.
- Resolving sysfs paths, `read_one`, and the middle recheck that reads every member once more (disk/disk.c:1283-1336); whether a disk's bay changed between the two readings (disk/disk.c:1626-1661) is an input.
- DiskAta.FirmwareAtaIndex: the single-controller and ARM conversions (disk/disk.c:1077-1087) are not part of this model.
- The calibration file and the firmware rule tables; a disk's slot, its matching rules and its LED record are inputs of `DiskConflicts.MapDisk`.
- DiskConflicts.MappingIsShaped: takes from the rule tables that SATA rules match SATA disks only, that rule numbers are positive and that a bay has one LED record.
- The result code of the request loop, which at most becomes the daemon's exit code after a failed restoration (led/led_service.c:209-212).
- DiskNamespaces.GroupsInAnyOrder: assumes distinct block-device names, as one sysfs directory guarantees.
- `identify_binary`, and the register and attribute accesses of the GPIO and sysfs LED backends; their checks before a write are part of `LedRequest`.
- Mcu.Session.Read: a corrupted status frame is one that the checks reject; corruption of several bytes with an unchanged sum is not modelled.
- The command-line parser, target selection and JSON output; `LedRequest.Parsed` states what the parsers guarantee of colours.
- LedRequest.NothingIsRefused: assumes of the N76 kernel driver that a successful write leaves the mode and colour it was not asked to change; its triggers and binding are those of the preflight, and a change of them is a failed step.
- Reading the device-tree and DMI files; `Identity.CompatibleRead` starts from the raw bytes.
