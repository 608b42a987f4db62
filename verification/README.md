# A network tunnel for serial devices: model and proofs

The repository tunnels serial devices over a network. A client library (`wrapper.cpp`) and a server
(`linux-server.cpp`) exchange framed packets of exchange protocol v1 over bindy connections. This project models
both programs and the channel between them in Dafny, with the helper code they rest on, and proves what the
tunnel is for: bytes arrive whole, in order, at the right device and on the right connection; a device has one
owner; an open means something; waiting has a bound; threads neither deadlock nor use what has been freed.

`dafny verify dfyconfig.toml` checks everything.

## How the model is built

| module | content |
|---|---|
| `Options` | a value that may be missing |
| `Codec`, `Bits`, `Enumerate` | packets byte by byte: encoders of both programs, dispatchers of both programs, the word converters bit by bit, packed structs |
| `Backoff` | `adaptive_wait_send`, the polling loops, the deadline of a whole call, the return value of `bindy_write` |
| `Hints` | `trim` and `read_hints` |
| `DeviceTable` | what `Supermap` does, as functions on values |
| `Server`, `Client` | the objects and maps of the two programs, each method proved against a function on values |
| `Streams`, `Tunnel`, `TunnelInvariant`, `TunnelRuns`, `TunnelEffects`, `TunnelHandshake`, `TunnelLostAnswer` | both programs and the channels as one transition system, its invariant, and theorems about every reachable state |
| `CondVar`, `Lifecycle`, `ClientLocks`, `ServerLocks` | the Win32 condition variable, birth and death of a server device with its threads, the client's locks, the server's locks |
| `IoBuf`, `Revealer` | the ring buffer and the growing address table |

The tunnel runs on the same functions (`Server.Callback`, `Server.AfterWrite`, `Client.Callback`, ...) that the
methods of the classes `Server.Supermap`, `Server.Device` and `Client.Wrapper` are proved to compute on their
objects. History fields of a connection (`sent`, `written`, `lost`, `produced`, `delivered`, `refused`, `unheard`,
`read`) record what passed; no step looks at them.

Assumptions, all on the environment or on situations the code leaves open:

- A bindy connection is a reliable FIFO channel in each direction until it goes down, a send that throws delivers
  nothing, and a connection id is not used twice. Which sends succeed, when a connection goes down, how much of a
  buffer `write()` accepts and what `read()` returns are arbitrary.
- One client process with any number of threads and connections. Both `callback_data` bodies and one round of a
  worker loop are atomic in `Tunnel`. So are the locked sections of the API calls; the sections of different calls
  interleave freely.
- On the client, the overlaps in which the code uses a freed object do not occur: `bindy_close` or `bindy_read`
  against the callback that deletes the same `Device` (wrapper.cpp:198-199, 421-435, 450, 469).
- On the server, the callbacks of one connection run one after another, and none follows its `callback_disc`:
  packets then still in the channel are discarded. That the callback uses a `Device` after `findDevice` has
  unlocked (linux-server.cpp:552-560) is then harmless, which `ServerLocks.BuffersSafe` proves.
- A packet already on its way to the client can still be delivered after the client's own `disconnect`, which
  `bindy_open` and `bindy_close` call without waiting for callbacks; a failed open even holds `global_mutex`
  meanwhile, so that a callback under way waits and goes on afterwards (wrapper.cpp:364-371).
- `removeConnection` erases the element its iterator stands on (linux-server.cpp:303-306). The model is the
  intended loop that removes every entry.
- `disconnect` does not wait for callbacks under way, and a send ends without waiting for a lock of the program.
- The exception the server's callback throws for data to a device that is not open (linux-server.cpp:553-557) is
  caught by its caller, and the server goes on. `TunnelRuns.PacketsAccepted` says exactly when it is thrown.
- `DeviceTable.Run` applies operations also after `map_mutex` has been left locked, where the program would block;
  its `mutexHeld` flag records that this point was reached.
- In `Tunnel`, a `bindy_open` left by an exception, from `connect` or from a send attempt, is one failing step: in
  either case no request is sent and the connection is dropped.

Things worth knowing about the code that the proofs bring out:

- An answer to an open request is recorded under the serial (`open_ok[serial]`), not under the connection, so a
  `bindy_open` can succeed although the server opened nothing for it. `TunnelHandshake.MisledIff` gives the exact
  condition at any moment of the call, as long as no other open of the serial begins before it is over. If one
  does, the earlier open can be misled from then on unless it already has its device
  (`TunnelHandshake.RivalMisleads`). Over all runs, these are the only two causes (`TunnelHandshake.MisledRuns`).
- For the same reason an open whose device was opened and whose positive answer arrived can fail: the end of
  another open takes the flag, or a reset or a negative answer clears it. `TunnelLostAnswer.FailIff` and
  `TunnelLostAnswer.FailRuns` give the exact conditions; the server then holds the device until it notices that
  the connection is gone (`TunnelLostAnswer.GrantedYetFailed`).
- The value `bindy_write` returns tells whether the data was sent exactly when some attempt within the timeout
  ends otherwise than by an exception the client's `adaptive_wait_send` swallows (wrapper.cpp:133-149, 400-407;
  `Backoff.WriteHonestIff`). Over a dead link it returns 1 (`Backoff.DeadLinkReportsSuccess`). Conservation is
  therefore stated for the sends that succeeded.
- `addDevice` returns with `map_mutex` locked for a device its own connection already has
  (linux-server.cpp:274). `DeviceTable.HeldIffAddsTwice` characterizes it, `ServerLocks.CallsComplete` and
  `ServerLocks.WedgedForever` show that it is the one way in which the server's callbacks come to a standstill,
  and `TunnelRuns.MapMutexFree` shows that this client library never provokes it.
- A timeout of 0 or less still sleeps 1 ms (`Backoff.DeadlineIffPositive`).
- A line break at offset 0 sticks to the first key of the hints, against the format comment at wrapper.cpp:41
  (`Hints.FormatIff`, `Hints.LeadingBreak`).
- The comments on the condition variable (tinythread.h:438-456) do not hold of the Win32 code. That only earlier
  waiters are woken is never guaranteed, by either call (`CondVar.LateWaiterWakes`). A `notify_one` is lost
  exactly when it finds its event still up (`CondVar.NotifyOneAccount`). A `notify_all` reaches all waiters
  exactly when no earlier one is about to reset the event (`CondVar.BroadcastIff`), and it is taken back exactly
  when the last thread inside leaves as one woken by it (`CondVar.ResetIff`); otherwise the event stays up with
  nobody inside (`CondVar.StaleBroadcast`).
- `bindy_freeMemoryForRevealer1Addresses` never frees the pointer array (`Revealer.AddressTable.FreeMemory`).

## Model

| member | source | states |
|---|---|---|
| `TunnelRuns.UpstreamConservation` | linux-server.cpp:491-515 | in every reachable state: bytes the device accepted, then bytes discarded or still in `net_to_dev_buffer`, then payloads in the channel, are the payloads of the successful `bindy_write` sends, in order; nothing is discarded while the device is open |
| `TunnelRuns.DownstreamOrder` | wrapper.cpp:410-437 | in every reachable state: bytes read plus the client buffer are the chunks delivered while registered, joined in order; those chunks and the ones in the channel stand at increasing positions of what the device produced, short of it by exactly the chunks whose send failed or that arrived while nothing was registered, and all of it iff there are none |
| `TunnelRuns.PacketsAccepted` | linux-server.cpp:535-561 | in every reachable state the next packet passes the server's asserts, makes its callback throw iff it is data for a device that is not there, and is long enough for the client's callback |
| `TunnelRuns.Ownership` | linux-server.cpp:163-310 | in every reachable state the locked device handles are exactly the serials in the map, no serial is under two connections, and a connection holds at most the device its own open asked for |
| `TunnelRuns.MapMutexFree` | linux-server.cpp:270-285 | no run with this client library reaches the return that skips the unlock |
| `TunnelRuns.OpenFindsNothing` | wrapper.cpp:345-356 | an open request never finds its device already present: it is the first packet of its connection |
| `TunnelRuns.Isolation` | linux-server.cpp:535-571 | a step of one connection leaves every other connection's channels, devices, buffers and byte counts as they are |
| `TunnelRuns.InvStep` | linux-server.cpp:491-571 | every step of either program or of the environment keeps the invariant of all connections, the lock set and the map mutex |
| `TunnelRuns.InvRun` | linux-server.cpp:491-571 | so does every run |
| `TunnelRuns.OwnServer` | linux-server.cpp:551-571 | a server callback on any packet of the client keeps the connection's upstream and downstream accounts |
| `TunnelRuns.OwnBufToDev` | linux-server.cpp:499-511 | writing any prefix of the buffer, or failing, keeps both accounts |
| `TunnelRuns.OwnDisconnected` | linux-server.cpp:656-658 | a disconnect turns buffered and travelling bytes into discarded ones and loses track of none |
| `TunnelInvariant.DevToNetOk` | linux-server.cpp:518-533 | a chunk whose send fails is dropped whole; order is kept |
| `TunnelInvariant.TakeDownOk` | wrapper.cpp:161-173 | delivering a chunk appends it whole to the registered buffer, or drops it whole |
| `TunnelRuns.OwnRead` | wrapper.cpp:428-434 | a `bindy_read` of any size keeps the downstream account: its bytes follow those read before |
| `TunnelEffects.WriteSends` | wrapper.cpp:394-408 | a `bindy_write` on an open connection that gets through adds one packet the server reads as data of this serial with these bytes, and nothing otherwise |
| `TunnelEffects.DataBuffered` | linux-server.cpp:551-561 | the payload goes behind what the device's buffer holds |
| `TunnelEffects.BytesWritten` | linux-server.cpp:499-505 | `write()` accepting n bytes: the device gets exactly the first n bytes of the buffer, and these leave the buffer |
| `TunnelEffects.WriteErrorStops` | linux-server.cpp:506-511 | `write()` failing: no byte is lost, the device stops, and one packet is sent that the client reads as the end of the device |
| `TunnelEffects.WorkersOver` | linux-server.cpp:495-523 | the workers of a stopped device have no step left |
| `TunnelEffects.StoppedForever` | linux-server.cpp:491-533 | after a write error the connection's device accepts no byte and produces no chunk in any run |
| `TunnelEffects.ErrorStopped` | linux-server.cpp:506-511 | a write error brings the connection into that situation |
| `TunnelEffects.OpenAnswered` | linux-server.cpp:563-566 | an open request is answered by one packet saying whether the device is there now, which it is iff it was there or could be opened and locked |
| `TunnelEffects.CloseAnswered` | linux-server.cpp:567-571 | a close request is answered by one packet the client reads as the end of the device, and the device is gone |
| `TunnelEffects.AnswerAccount` | linux-server.cpp:550-571 | over every run the packets the callback sends, with those it could not send, are as many as the open and close requests handled |
| `TunnelEffects.ChunkSent` | linux-server.cpp:523-532 | a chunk read from the device is sent whole with its serial, or counted as refused |
| `TunnelEffects.ChunkArrives` | wrapper.cpp:161-173 | a chunk that arrives goes whole to the end of the registered buffer, or counts as unheard |
| `TunnelEffects.ReadTakes` | wrapper.cpp:428-434 | a read hands out the first bytes of the buffer, as many as asked for if there are as many |
| `TunnelEffects.FinishRegisters` | wrapper.cpp:364-374 | a successful open registers an empty device of its serial |
| `TunnelEffects.RegisteredIff` | wrapper.cpp:192-201 | over every run an open connection is registered at the end iff it was at the start and neither `bindy_close` nor the arrival of a close answer or error notification ended it |
| `TunnelEffects.CloseSends` | wrapper.cpp:456-470 | a `bindy_close` that gets through adds one close request of the registered serial, and the device is gone either way |
| `TunnelEffects.DisconnectClears` | linux-server.cpp:298-310 | when the server notices a disconnect, exactly the devices of that connection go |
| `TunnelHandshake.HandshakeSound` | wrapper.cpp:350-374 | a device is registered, or an open has succeeded, only if a positive answer for the serial arrived after the open's own reset and the server really opened the device for some connection |
| `TunnelHandshake.PositiveAnswerBacked` | linux-server.cpp:563-566 | every positive answer in a channel stands for a device `addDevice` reported present to that connection |
| `TunnelHandshake.HandStep` | wrapper.cpp:174-184 | every step keeps the handshake invariant |
| `TunnelHandshake.MayAnswerShrinks` | wrapper.cpp:339-375 | once a connection can no longer be answered positively, or negatively, nothing but a new open changes that |
| `TunnelHandshake.SafeRun` | wrapper.cpp:350-374 | an open that has its device, or that no other connection's answer can reach, is not misled in any run in which no other open of the serial begins before it returns; what is opened afterwards does not matter |
| `TunnelHandshake.MisledIff` | wrapper.cpp:182 | at any moment of a `bindy_open`, some run without another open of the serial during the call misleads it iff nothing was granted to it and the flag is up or another connection of the serial may still be answered positively |
| `TunnelHandshake.MisledFromReset` | wrapper.cpp:350-352 | at its reset of the flag: iff some connection of the serial may still be answered positively |
| `TunnelHandshake.RivalMisleads` | wrapper.cpp:350-365 | once another open of the serial has begun during the call, the earlier one can be misled iff nothing was granted to it |
| `TunnelHandshake.TwoOpens` | wrapper.cpp:350-365 | in particular the earlier of two overlapping opens can be misled, from every reachable state and for every two connections |
| `TunnelHandshake.MisledRuns` | wrapper.cpp:350-374 | every run that misleads an open has an unsettled answer at its reset or another open of the serial during the call, and such a run exists iff one of these is possible |
| `TunnelHandshake.UnsettledOccurs` | wrapper.cpp:350-356 | both situations of that equivalence are reachable |
| `TunnelLostAnswer.FlagFallsIff` | wrapper.cpp:350-366 | a step takes the flag of a serial down iff it is a reset of the serial, the end of an open of the serial, or a negative answer for it |
| `TunnelLostAnswer.FlagStays` | wrapper.cpp:350-366 | over any run without such a step the flag stays up |
| `TunnelLostAnswer.FailIff` | wrapper.cpp:362-371 | an open that waits with its flag up can still fail, without further opens of the serial during the call, iff another one is under way or a negative answer for the serial may still arrive |
| `TunnelLostAnswer.FailRuns` | wrapper.cpp:350-371 | every run in which it fails has such a cause at the start or a further open of the serial during the call, and there is such a run iff one of these is possible |
| `TunnelLostAnswer.RivalTakesAnswer` | wrapper.cpp:350-371 | from any state: a new open of the serial makes the answered one fail at once, while the server keeps its device |
| `TunnelLostAnswer.GrantedYetFailed` | wrapper.cpp:350-371 | for every two connections a state is reachable in which an open has failed though its device was opened for it, its positive answer arrived, and the server holds the device |
| `Bits.WriterBits` | linux-server.cpp:102-107 | the masks and shifts of the writers store the four base-256 digits of the word |
| `Bits.ReaderBits` | linux-server.cpp:85-87 | the shifts and ors of the readers give the number with these digits |
| `Bits.BitsRoundTrip` | wrapper.cpp:122-131 | in masks, shifts and ors: reading four written bytes gives the word back |
| `Codec.BytesRoundTrip` | wrapper.cpp:122-131 | writing a read word reproduces its four bytes |
| `Codec.ProtocolBytes` | structs.h:4-20 | version, command, serial, flag and length of every packet, in literal bytes |
| `Codec.EncodeRawData` | linux-server.cpp:343-358 | both dispatchers recover serial and payload of a RawData packet; `bindy_write` builds the same one (wrapper.cpp:394-398) |
| `Codec.EncodeOpenRequest` | wrapper.cpp:345-348 | the server's dispatcher recovers the open request and its serial |
| `Codec.EncodeCloseRequest` | wrapper.cpp:456-459 | the server's dispatcher recovers the close request and its serial |
| `Codec.EncodeEnumerateRequest` | wrapper.cpp:291-293 | 28 bytes that the server's dispatcher takes for an enumerate request |
| `Codec.EncodeOpenAnswer` | linux-server.cpp:379-394 | the client's dispatcher recovers serial and flag; the flag is at byte 27 |
| `Codec.EncodeCloseAnswer` | linux-server.cpp:415-430 | the client's dispatcher takes it for the end of the device |
| `Codec.EncodeErrorNotification` | linux-server.cpp:472-486 | the client's dispatcher takes it for the end of the device |
| `Enumerate.LensTotal` | structs.h:28-73 | the packed `device_description` has 180 bytes |
| `Enumerate.PackFits` | structs.h:28-73 | cutting a packed struct at its field sizes gives the fields back |
| `Enumerate.ImagesRoundTrip` | linux-server.cpp:465-467 | an array of structs has 180 bytes each and reads back as the same structs |
| `Enumerate.EncodeEnumerateAnswer` | linux-server.cpp:451-469 | the in-place encoder produces head, count and struct array |
| `Enumerate.CropHead` | wrapper.cpp:304-317 | of a stored server answer it hands out exactly the list: its length, 180 bytes per device, the same structs; a packet shorter than the head gives neither count nor buffer |
| `Enumerate.EnumerateEndToEnd` | wrapper.cpp:185-191 | for every descriptor list, what the client crops is that list, with its length and 180 bytes per device |
| `Client.EnumerationDelivered` | wrapper.cpp:185-191 | through the client's maps: after delivery the connection's stored packet yields the server's list and nothing else has changed |
| `Client.Wrapper.CallbackData` | wrapper.cpp:151-208 | for every packet, what changes in each of the global maps and that nothing else does; a close answer or error notification leaves its connection without a device |
| `Client.Wrapper.BeginOpen` | wrapper.cpp:345-352 | the request the server's dispatcher reads as an open of the serial, and the flag of that serial down |
| `Client.Wrapper.FinishOpen` | wrapper.cpp:364-374 | the flag is consumed; an empty device is registered and the id returned iff it was up |
| `Client.Wrapper.Read` | wrapper.cpp:410-437 | what lands in the caller's memory, what stays buffered, and the return code |
| `Client.Wrapper.Write` | wrapper.cpp:377-408 | the packet leaves iff the first attempt within the timeout that is not refused gets through; 0 is returned iff that attempt breaks, else 1; so the value is truthful iff there is such an attempt |
| `Client.Wrapper.Close` | wrapper.cpp:439-471 | a close request of the registered serial is sent iff there is a device and the one attempt gets through; the connection has no device afterwards either way |
| `Client.Wrapper.FinishEnumerate` | wrapper.cpp:299-324 | the stored answer is consumed and the server's list handed out; without an answer there is neither count nor buffer |
| `Server.Device.BufToDevRound` | linux-server.cpp:495-514 | exactly the n bytes accepted are reported and erased from the front; an error keeps them, stops the device and is notified with a packet the client reads as its end; otherwise nothing happens |
| `Server.Device.DevToNetRound` | linux-server.cpp:523-532 | the packet sent carries exactly the chunk read |
| `Server.Supermap.Find` | linux-server.cpp:259-267 | the device of that connection and serial, or null |
| `Server.Supermap.OpenDevice` | linux-server.cpp:163-226 | a device and its lock together iff every kernel call succeeds and nobody holds the lock; any single failure leaves the locks as they were |
| `Server.Supermap.Add` | linux-server.cpp:270-285 | reports presence truthfully; new table, lock set and the mutex left locked on the early return |
| `Server.Supermap.Remove` | linux-server.cpp:287-296 | removes one device and its lock |
| `Server.Supermap.RemoveAll` | linux-server.cpp:298-310 | the loop removes every device of the connection and their locks, and no other |
| `Server.Supermap.CallbackData` | linux-server.cpp:535-654 | on objects: table shown afterwards and end are those of the function the tunnel runs on; an open request is answered with whether the device is there now, a close request with a close answer, an enumerate request with the devices found, anything else not at all |
| `Server.Supermap.CallbackDisc` | linux-server.cpp:656-658 | on objects: the table shown afterwards is the one without the connection |
| `DeviceTable.ExclusiveAdd` | linux-server.cpp:270-285 | adding keeps exclusive ownership, succeeds as reported, and a failure changes nothing |
| `DeviceTable.ExclusiveRemove` | linux-server.cpp:287-296 | removing keeps exclusive ownership |
| `DeviceTable.ExclusiveDisconnect` | linux-server.cpp:298-310 | disconnecting keeps exclusive ownership, empties the connection and leaves every lookup of another one as it was |
| `DeviceTable.OwnershipRun` | linux-server.cpp:259-310 | exclusive ownership after every history, of any clients |
| `DeviceTable.ReleasesExactly` | linux-server.cpp:228-310 | removal and disconnect release exactly the locks of what they remove |
| `DeviceTable.FlatRefinement` | linux-server.cpp:259-310 | after every history the two-level map and its locks agree with a flat map from (connection, serial) that has no locks and opens a device iff no connection has it |
| `DeviceTable.HeldIffAddsTwice` | linux-server.cpp:272-274 | the map mutex is left locked iff some open asked for a device its connection already had |
| `Backoff.AdaptiveWaitSend` | wrapper.cpp:133-149 | the loop against an arbitrary network: where and how it stops, also by an exception it does not catch, the total it reports, the time it slept |
| `Backoff.AdaptiveWaitSendOrThrow` | linux-server.cpp:117-138 | the server's copy throws iff nothing was sent |
| `Backoff.SleptIdentity` | wrapper.cpp:142-145 | slept = total_delay - delay + 2 and total_delay >= 3*delay - 6 after any number of failures |
| `Backoff.DelayGrowth` | wrapper.cpp:144 | the truncated delay still grows like 1.5^k |
| `Backoff.BackoffBounds` | wrapper.cpp:133-149 | 8*total_delay <= 9*timeout - 3, logarithmically many attempts, sleep below the timeout |
| `Backoff.EndIff` | wrapper.cpp:138-147 | the data is sent iff the first attempt within the timeout that is not refused gets through, and an exception leaves the loop iff that attempt breaks |
| `Backoff.SentIff` | wrapper.cpp:138-146 | the loop gives up iff every attempt within the timeout is refused; where nothing else is thrown, the data is sent iff one gets through |
| `Backoff.WriteHonestIff` | wrapper.cpp:400-407 | the return value of `bindy_write` tells whether the data was sent iff some attempt within the timeout is not refused |
| `Backoff.DeadLinkReportsSuccess` | wrapper.cpp:400-407 | over a dead link nothing is sent and 1 is returned |
| `Backoff.NoOverflowIff` | wrapper.cpp:138-145 | no int of the loop exceeds INT_MAX, whatever the network does, iff the timeout is at most SafeTimeout, which is at least two thirds of INT_MAX, rounded down |
| `Backoff.OvershootIff` | wrapper.cpp:133-149 | the bound on the reported total is attained iff the timeout is 3 and its one attempt is refused |
| `Backoff.SleepUntil` | wrapper.cpp:246-274 | how often the polling loop goes round, for any budget, also a negative one |
| `Backoff.SendAndPoll` | wrapper.cpp:295-297 | polling goes on until the answer is there or for exactly the timeout less the delay that sending reports, at least once; together they sleep at most the timeout |
| `Backoff.Deadline` | wrapper.cpp:353-362 | the same of every behaviour of `bindy_open` |
| `Backoff.DeadlineIffPositive` | wrapper.cpp:246-274 | the deadline is kept by every behaviour iff the timeout is positive |
| `Backoff.DeadlineTight` | wrapper.cpp:353-362 | for every positive timeout some behaviour sleeps exactly that long |
| `CondVar.CountAlwaysExact` | tinythread.cpp:75-119 | in every reachable state the waiter count is the number of threads registered and not yet discounted |
| `CondVar.CountStep` | tinythread.h:420-436 | every step keeps that |
| `CondVar.PromiseRun` | tinythread.cpp:109-119 | over any run after a clean broadcast, whoever of its waiters has not woken finds the event signalled |
| `CondVar.BroadcastIff` | tinythread.cpp:88-119 | `notify_all` reaches every waiter in every interleaving iff no thread is between its last decrement and its `ResetEvent` |
| `CondVar.ResetterOccurs` | tinythread.cpp:84-90 | such a thread can be there during a broadcast, in a run of three threads |
| `CondVar.LateWaiterWakes` | tinythread.h:438-460 | after any `SetEvent` of `notify_one` or `notify_all`, from any state, a thread that was not waiting can start to wait and be woken by that event |
| `CondVar.NotifyOneAccount` | tinythread.cpp:75-105 | over every run each `notify_one` signal has woken one waiter, is still up, or was lost because it found the event up; the three counts add up |
| `CondVar.NotifyOneCoalesces` | tinythread.cpp:95-105 | such a loss happens, with a waiter left asleep |
| `CondVar.ResetIff` | tinythread.cpp:75-91 | over every run a reset of the broadcast event falls due iff the last thread inside leaves as one woken by it; until then the event stays up |
| `CondVar.StaleBroadcast` | tinythread.cpp:81-90 | a state with the event up, nobody inside and nobody to reset it is reachable |
| `CondVar.SilentRun` | tinythread.cpp:95-119 | with nobody inside or about to signal and both events down, no event goes up in any run in which nobody starts to wait |
| `CondVar.NotifySignals` | tinythread.cpp:95-119 | with somebody inside, either call sets its event and changes nothing else |
| `Lifecycle.InvStep` | tinythread.cpp:160-244 | every step of owner and workers keeps the life-cycle invariant |
| `Lifecycle.TeardownSafe` | linux-server.cpp:228-244 | in every interleaving: no `std::terminate`, no worker uses a closed handle, a deleted mutex or buffer or a deleted thread object, no worker leaves its loop untold, and a joined thread is marked as over |
| `Lifecycle.ExitIsFinal` | linux-server.cpp:495-510 | a write error or a deletion anywhere in a run sets `should_exit` for good |
| `Lifecycle.MarkIsFinal` | tinythread.cpp:178-180 | `mNotAThread` never goes back to false |
| `Lifecycle.Progress` | tinythread.cpp:225-244 | unless the device is gone, some party can move |
| `Lifecycle.RankRun` | linux-server.cpp:491-533 | once `should_exit` is set, no run is longer than the work left to owner and workers |
| `Lifecycle.TeardownCompletes` | linux-server.cpp:228-244 | deleting a device takes at most 20 steps in any schedule and can only stop when all is released |
| `ClientLocks.MutualExclusion` | tinythread.h:159-243 | no two threads hold `global_mutex` or the same device mutex in any reachable state |
| `ClientLocks.InvRun` | wrapper.cpp:410-437 | over every run the owners of the locks and the program points agree |
| `ClientLocks.HandOver` | wrapper.cpp:416-435 | a device is locked only from under `global_mutex`; `bindy_read` then lets go of `global_mutex` first, the callback of the device first |
| `ClientLocks.Progress` | wrapper.cpp:151-173 | with any call under way, some thread can move |
| `ClientLocks.CallsComplete` | wrapper.cpp:410-471 | under any schedule the calls under way make boundedly many lock operations and can only stop when all are over |
| `ServerLocks.InvRun` | linux-server.cpp:259-310 | over every run of callbacks and workers, lock owners, program points and devices agree |
| `ServerLocks.BuffersSafe` | linux-server.cpp:551-561 | in every interleaving: one thread at a time under `map_mutex` or in a buffer, a callback that found its device still has it, and no buffer is used once its device is being deleted |
| `ServerLocks.AppendEnters` | linux-server.cpp:552-560 | a lookup that finds its device lets go of `map_mutex` and goes on to the buffer |
| `ServerLocks.AddOwns` | linux-server.cpp:270-285 | opening a free handle makes the connection its owner, both workers running |
| `ServerLocks.RemovalComplete` | linux-server.cpp:287-310 | over any run, a removal that has come to its end has removed every device it was asked to, whatever the others did |
| `ServerLocks.Progress` | linux-server.cpp:287-310 | with a callback under way, some thread can move without a new callback or a new worker round, although a removal keeps `map_mutex` while it joins workers |
| `ServerLocks.CallsComplete` | linux-server.cpp:259-310 | under any schedule the callbacks under way make boundedly many steps and can only stop when all are over, or when one has returned with `map_mutex` locked |
| `ServerLocks.WedgeIff` | linux-server.cpp:272-274 | which happens exactly at an open request for a device its own connection already has |
| `ServerLocks.WedgedForever` | linux-server.cpp:272-274 | then it stays locked, and a callback that waits for it waits in every run |
| `Hints.Trim` | wrapper.cpp:28-39 | the two erasures compute the trimming function |
| `Hints.TrimmingIsTrim` | wrapper.cpp:28-39 | that is the string without blank ends which blanks extend to the source |
| `Hints.TrimUnique` | wrapper.cpp:28-39 | and there is only one such string |
| `Hints.ReadHints` | wrapper.cpp:42-63 | the index loop computes the last-wins fold over the lines, a break at offset 0 not counting |
| `Hints.NextLine` | wrapper.cpp:45-61 | each move of the indices takes exactly the next line of the reference |
| `Hints.PaddedHint` | wrapper.cpp:48-58 | a line with any spaces and tabs around key and value means that key and that value |
| `Hints.WriteParse` | wrapper.cpp:42-63 | parsing hints written with such padding and any non-empty mix of newlines and carriage returns between them executes their assignments in order |
| `Hints.PrintParse` | wrapper.cpp:41-63 | in particular for the plain format of the comment |
| `Hints.RoundTrip` | wrapper.cpp:41-63 | any map of printable hints, written in any order and layout and parsed, comes back |
| `Hints.FormatIff` | wrapper.cpp:45-60 | the parser agrees with splitting at every break iff no hint follows a break at offset 0 |
| `Hints.LeadingBreak` | wrapper.cpp:47-60 | what it makes of such a hint: the break becomes part of the key |
| `IoBuf.IoBuf.RunOps` | iobuf.c:20-100 | any sequence of calls on the ring leaves and hands out what the same operations do on a queue: contents plus bytes accepted are bytes removed plus contents left, in order, within capacity |
| `IoBuf.IoBuf.constructor` | iobuf.c:3-11 | an empty queue over zeroed memory |
| `IoBuf.IoBuf.ReInit` | iobuf.c:13-18 | an empty queue from any state |
| `IoBuf.IoBuf.Put` | iobuf.c:20-32 | the queue operation PutC, with its refusal when full |
| `IoBuf.IoBuf.Get` | iobuf.c:55-67 | the queue operation GetC, with its refusal when empty |
| `IoBuf.IoBuf.Peek` | iobuf.c:69-79 | the queue operation PeekC |
| `IoBuf.IoBuf.PutAll` | iobuf.c:34-53 | all or nothing: the inner count never disagrees after the check up front |
| `IoBuf.IoBuf.GetAll` | iobuf.c:81-100 | all or nothing, and on refusal the caller's memory is untouched |
| `Revealer.GrowthBounds` | revealer_1.cpp:151-158 | the table always fits, has 10 slots or at most 1.5 per address, and all reallocations preserve at most 2.2 pointers per slot gained |
| `Revealer.AddressTable.constructor` | revealer_1.cpp:59-72 | ten fresh distinct slots, nothing stored |
| `Revealer.AddressTable.IncreaseMemory` | revealer_1.cpp:151-158 | growth keeps all old slots in place and allocates each new one once |
| `Revealer.AddressTable.SaveAddress` | revealer_1.cpp:184-196 | the address is appended; stored ones are untouched |
| `Revealer.AddressTable.ReceiveResponses` | revealer_1.cpp:161-181 | the table holds the answers in arrival order |
| `Revealer.AddressTable.FreeMemory` | revealer_1.cpp:8-19 | each slot and the struct are freed exactly once; the pointer array alone stays allocated |

## Left out

- bindy, libximc, sockets, termios, `getifaddrs`, signals and `main`: foreign calls; what they answer is a parameter of the steps.
- `bindy_init`, `bindy_setkey`, `find_key`, `bindy_free`: wrappers and plain allocation, except `read_hints`.
- The device queries behind an enumerate request (linux-server.cpp:573-645): the model starts from the finished descriptor list. Enumeration traffic is not part of the runs of `Tunnel`. An enumeration without an answer returns without disconnecting (wrapper.cpp:300-301); that connection is not modelled further.
- `read_uint16`, `write_uint16`, `buf2str`, `str2buf`, `void2str`, `void2buf`: unused or trivial.
- POSIX bodies of condition variable and mutex, `recursive_mutex`, `thread::id`, `chrono`, `thread::detach`: pass-throughs.
- Socket set-up, broadcasting and printing of the revealer; `realloc` and `malloc` are assumed to succeed.
- macro.h is not part of this model: `increase(x, lo, hi)` is taken as the cyclic increment.
- Fairness and wall-clock time: only requested sleep is counted. `int` lengths of packets over 2 GB are not narrowed.
- Memory ownership inside the client: a `Device` in the client's map is a value, so leaked throwaway devices (wrapper.cpp:164, 177) and freed ones are not captured.
- `Client.Wrapper.Close`: is one section here, where `Tunnel` has two, and does not model the second `delete` when a callback has removed the device first, which is undefined behaviour and excluded by assumption.
- `Server.Supermap.RemoveAll`: states the intended removal of every entry, because the iterator of linux-server.cpp:303-306 is invalid after its first erasure.
- `Server.Supermap.CallbackData`: does not model the end of the process when an assertion on version or length fails; such packets leave the table as it is, and this client never sends one.
- `Server.Device.constructor`: states the initial values only; the mutex and the worker threads, and the order they are made in, are the subject of `Lifecycle`, where they interleave with it.
- `TunnelRuns.UpstreamConservation`: speaks of sends that succeeded, not of return values (see `Backoff.WriteHonestIff`). A write may also happen after the device has been closed, because `bindy_write` looks the device up before it sends.
- `Client.Wrapper.Read`: the lookup failure is the integer -2, not the huge `size_t` the caller sees (wrapper.cpp:410-426).
