# kata-agent: a verified model of its protocols and codecs

kata-agent runs inside a VM and starts, watches and removes containers on behalf of a runtime outside it. Its hard
logic sits in a few small protocols that several threads take part in, and in two byte-level codecs. This project
models them in Dafny and proves what they are for, or exactly when they achieve it.

| module | models |
|---|---|
| `Hotplug` | calls that wait for a hotplugged device, the uevent thread that wakes them, and the two maps they share |
| `Uevents` | the text of a kernel uevent |
| `NetlinkWire`, `NetlinkAttrs` | regions of length-prefixed, 4-byte aligned records (RFC 3549, section 2.3.2), and attributes written to and parsed from a message buffer |
| `NetlinkDump` | receiving the answer to a dump over several datagrams; request sequence numbers |
| `NetlinkTalk` | requests answered by one datagram, and which answer a request takes |
| `NetlinkBytes` | receptions and answers from the bytes of the messages on |
| `NetlinkRoutes` | replacing the routes of the main table (RFC 3549, section 3.1.1) |
| `Devices` | rewriting device numbers in a container's spec |
| `Processes`, `ProcessSteps`, `ProcessWaits`, `ProcessRuns`, `ProcessReaper` | container processes from fork to exit status: the SIGCHLD reaper, the waiting call, the exit pipe, and who closes which descriptor; the protocol, what a step does to it, its runs, and the code that takes the steps |
| `CopyFile` | receiving a file in chunks through a temporary file |
| `ProtoWire`, `ProtoMessages`, `ProtoRoundTrip`, `ProtoBytes`, `ProtoStream`, `ProtoStats`, `ProtoRequests` | Protocol Buffers: the wire format, messages as values with the fields they do not know, the bytes of each message, and the generated size, write and merge code |
| `SandboxStorage`, `ContainerStorages` | reference counts of the sandbox's storages; how creating and removing containers counts, mounts and unmounts them |
| `MountOptions` | splitting mount options into flags and text |
| `Text`, `Bytes`, `Basics` | strings, byte sequences, and what else several modules share |

Shape: code that changes state is a class or a method, proved against functions on values; protocols are state
machines whose steps are the code's critical sections; main results are lemmas over all inputs, all runs or all
interleavings. What the small functions underneath compute is stated apart from them, in texts, bytes and numbers:
what a uevent message sets off (`Hotplug.MessageActs`), what datagrams are read as (`NetlinkBytes.DumpIsRead`,
`NetlinkBytes.AnswerIsJudged`), how messages are written and read (`ProtoBytes`). System calls, sockets, clocks and the kernel are parameters or steps: a stream of datagrams, the set of
changes the kernel refuses, a map from names to file contents, the exits that happen.

Where a property fails on some inputs, the code is kept as it is: a lemma shows the failing case and another says
exactly when the property holds. In particular

- two calls waiting on one address: the second registration, or the first one's clean-up, takes the other's wakeup
  away, and that call fails (`Hotplug.SecondWaiterLosesWakeup`, `Hotplug.NoLostWakeupExactly`,
  `Hotplug.LostWaiterFails`);
- a lookup takes any path that contains the address, so SCSI hosts 0 and 10 are mixed up
  (`Hotplug.OtherScsiHostIsTaken`, `Hotplug.LookupFindsExactly`);
- a netlink request takes the first answer that waits, so after a receive that failed every later request judges an
  earlier one's answer, until a dump reads the rest away (`NetlinkTalk.RefusalIsMissed`,
  `NetlinkTalk.TalksAreOwnExactly`, `NetlinkTalk.JudgesLagging`);
- one-byte and two-byte netlink attributes are padded to four bytes, and the readers for them do not accept that
  (`NetlinkAttrs.AppendThenParse`);
- renumbering devices one after another renames an entry twice when a new number is a later device's old one
  (`Devices.ChainedRenumbering`, `Devices.SequentialIsSimultaneousExactly`, `Devices.ChainsMakeTheDifference`);
- a process id that comes round while an earlier owner is still tracked can send the second owner's exit to the first
  one's record and pipe (`ProcessRuns.ReusedPidLosesExit`, `ProcessRuns.FaithfulExactly`, `ProcessRuns.HonestExactly`);
- a left-over temporary file that is too long, or an empty last chunk, breaks a file transfer
  (`CopyFile.TransferIsAtomicExactly`); two transfers at the same time go wrong when their targets and temporary files
  are not all different, as with names that differ only in the extension (`CopyFile.SharedTmpLosesData`,
  `CopyFile.BothDeliveredExactly`);
- the second pass of writing a message trusts the sizes of the first: called alone after a change, it writes what
  cannot be read back (`ProtoStats.StaleSizeIsUnreadable`, `ProtoStats.StatsWrittenExactly`,
  `ProtoRequests.CreationWrittenExactly`; the library's own write calls run both passes);
- the comment above `unset_sandbox_storage` promises true only when no container uses the storage any more, but the
  code answers true whenever it had a user (`SandboxStorage.UnsetKeepsItsPromiseExactly`);
- only the first container that uses an ephemeral storage lists its mount, so removing that container unmounts the
  storage under the others, and later containers may find it counted but not mounted
  (`ContainerStorages.SecondUserLosesStorage`, `ContainerStorages.InUseIsMountedExactly`); and that removal unmounts
  the storage twice, so it always fails (`ContainerStorages.OwnerIsNotRemoved`,
  `ContainerStorages.RemovalSucceedsExactly`, `ContainerStorages.OwnersStay`);
- a mount option that means to clear a flag sets it (`MountOptions.ReadWriteStaysReadOnly`,
  `MountOptions.FlagsAsIntendedExactly`).

Arithmetic is that of a release build: 32-bit counters (request numbers, storage users) wrap. There is one exception:
where a walk over records would make the unsigned remaining length underflow, the models end with an outcome of their
own (`Underflow`, `Underflowed`). A debug build stops there; a release build goes on outside the region.
`NetlinkWire.SafeSizesExactly` says for which region sizes that can happen at all.

## Model

| member | source | states |
|---|---|---|
| Hotplug.NotifyImpliesLookup | src/uevent.rs:96-104 | whatever path the notifier matches to an address, the waiter's lookup matches too |
| Hotplug.ScsiTestsAgree | src/device.rs:196-202 | for the addresses SCSI lookups build, the two tests accept the same paths |
| Hotplug.PciTestsAgree | src/device.rs:108-138 | for the address of any bridge on the root bus and any device behind it, the two tests agree on every path in which a root-bus function is named only right after the root, the shape sysfs gives paths |
| Hotplug.DeeperDeviceIsNotNotified | src/uevent.rs:96-104 | the shape is needed: where a root-bus function is named a second time, deeper down, lookups find the device and the notifier does not |
| Hotplug.LookupFindsExactly | src/device.rs:154-160 | a lookup of a two-part address accepts exactly the paths that name the two parts one after the other, or components that only end and begin like them |
| Hotplug.OtherScsiHostIsTaken | src/device.rs:154-160 | a run: a disk on SCSI host 10 of the root bus appears, and a call for the one on host 0 returns its name, although the path does not name it |
| Hotplug.Rendezvous.Begin | src/device.rs:149-172 | the locked opening block either finds a name in the device map or registers the call's channel: one atomic step, keeping the invariant |
| Hotplug.Rendezvous.HandleUevent | src/uevent.rs:76-118 | the locked block of the uevent thread is one Event step: it stores the name and empties exactly the matching watcher entries; other events change nothing |
| Hotplug.Rendezvous.HandleMessage | src/uevent.rs:67-118 | one message of the kernel: it is parsed, and acted on if it announces a block device below the root bus |
| Hotplug.MessageActs | src/uevent.rs:71-118 | for every message, by the texts in it: if its last SUBSYSTEM is "block", its last DEVNAME is not empty and its last DEVPATH is below /devices/pci0000:00, the name is kept under the path, every waiter the path concerns is sent it and their entries go; any other message changes nothing |
| Hotplug.ConcernsExactly | src/uevent.rs:94-104 | which paths the notifier and the lookup take for an address: those where it follows the root bus or, for one that ends in "block", those it is part of; and all those it is part of |
| Hotplug.AddressesAre | src/device.rs:119-138 | the texts of the addresses that SCSI and PCI calls wait for |
| Hotplug.DiskWakesItsWaiter | src/uevent.rs:71-118 | the NUL-separated text that announces a disk behind a bridge stores its name and is sent to the idle call that waits for that bridge and device |
| Hotplug.Rendezvous.SendToMatching | src/uevent.rs:94-113 | exactly the watchers the path concerns are sent the name, once each |
| Hotplug.Rendezvous.TimeoutCleanup | src/device.rs:179-190 | after a timeout the address has no entry and the call has failed; the invariant is kept |
| Hotplug.StepKeepsInv | src/uevent.rs:77-118 | every step, whoever takes it, keeps the invariant of both maps and of all channels |
| Hotplug.InvAlways | src/main.rs:67-70 | the invariant holds in every state of every interleaving, with any number of waiters |
| Hotplug.ReturnedNamesAreGenuine | src/device.rs:145-194 | every returned name was carried by an event whose path contains the call's address; no channel gets two messages |
| Hotplug.ReturnedNamesFitTheDevice | src/device.rs:145-194 | for a two-part address, the event that carried the returned name went through the device itself or through components with longer names |
| Hotplug.StepKeepsWakeups | src/device.rs:169-190 | a step keeps the no-lost-wakeup property if and only if it leaves other waiting calls' entries alone |
| Hotplug.NoLostWakeupExactly | src/device.rs:145-194 | over whole runs, no wakeup is lost if and only if no step registers over or cleans up another waiting call's entry |
| Hotplug.NoLostWakeupWithOneWaiter | src/device.rs:145-194 | with one waiter per address at a time, no reachable state has lost a wakeup |
| Hotplug.EventReachesWaiter | src/uevent.rs:87-118 | a matching event reaches every idle waiter of the address, which then returns that name |
| Hotplug.TimeoutIsHonest | src/device.rs:177-190 | in a state where no wakeup is lost, a receive can time out only if no event of the whole run notify-matched the address |
| Hotplug.ScsiTimeoutMeansAbsent | src/device.rs:196-202 | in a state where no wakeup is lost, a timeout for a SCSI address means no device for it ever appeared |
| Hotplug.PciTimeoutMeansAbsent | src/device.rs:204-209 | the same for PCI addresses, when the events' paths have the shape sysfs gives them |
| Hotplug.CleanupLeavesNoEntry | src/device.rs:180-182 | the clean-up removes the address's entry and no other |
| Hotplug.SecondWaiterLosesWakeup | src/device.rs:169-190 | two waiters on one address: a concrete run in which the first one's clean-up takes the second one's entry, so that the event does not reach it |
| Hotplug.LostWaiterFails | src/device.rs:177-190 | a waiter that has lost its entry before anything was sent never returns a name, whatever happens afterwards |
| Hotplug.WokenExactlyByNotify | src/uevent.rs:96-104 | in every state with the invariant and no lost wakeup, an event wakes an idle waiter if and only if the notifier's test matches; if only the lookup's test does, the waiter stays idle while a new lookup finds the device |
| Uevents.ParseUevent | src/uevent.rs:31-52 | the fields are set in order from the NUL-separated parts after the header |
| Uevents.ParseOfRender | src/uevent.rs:31-52 | parsing inverts rendering for any header, any fields in any order, values with '=' included; the last occurrence wins, unknown keys and bare text are ignored |
| Uevents.FieldsAreLastGiven | src/uevent.rs:31-52 | for any parts whatever, each of the six fields is what follows the last "ACTION=", "DEVPATH=", "DEVNAME=", "SUBSYSTEM=", "SEQNUM=" or "INTERFACE=" at the front of a part, and empty when there is none |
| Uevents.DiskIsAnnounced | src/uevent.rs:31-52 | the event that a text in the kernel's order of keys is parsed to |
| NetlinkWire.AlignedWalkIsSafe | src/netlink.rs:725-752 | over a 4-aligned region a walk never makes the unsigned remaining length underflow, and visits only whole records inside the region |
| NetlinkWire.SafeSizesExactly | src/netlink.rs:838-857 | the region sizes, however large, for which no contents make the walk underflow are exactly the multiples of 4 and those below one header |
| NetlinkWire.WalkVisitsAll | src/netlink.rs:838-857 | a walk over records laid out one after another visits every one, in order, and ends at the end |
| NetlinkWire.LittleEndianDigits | src/netlink.rs:2516-2551 | byte i of a number is its i-th digit to the base 256, least significant first |
| NetlinkAttrs.AddAttrVar | src/netlink.rs:2480-2496 | the attribute is appended in place at the aligned end: header, data, new message length, everything else unchanged |
| NetlinkAttrs.AddAttrSize | src/netlink.rs:2516-2551 | the integer forms append the low bytes of the value in the same layout |
| NetlinkAttrs.RecordInBytes | src/netlink.rs:2480-2496 | the bytes of one attribute: its length with the padding, its type, both least significant byte first, the data, zeros up to a multiple of four |
| NetlinkAttrs.AppendedInBytes | src/netlink.rs:2480-2496 | the bytes of the 2048-byte buffer after an append, which has room exactly when the padded attribute fits behind the aligned end |
| NetlinkAttrs.AppendAllHolds | src/netlink.rs:2480-2551 | after any list of appends that fits, the buffer holds the unchanged header, then the records in order, then zeros, and the length field is right |
| NetlinkAttrs.FitsExactly | src/netlink.rs:2480-2551 | the condition under which a list of appends writes inside the 2048-byte buffer, which the code does not check: the padded attributes fit behind the header |
| NetlinkAttrs.ParseAttrs | src/netlink.rs:2460-2478 | over any bytes, each slot below max holds the first visited attribute of its type; the walk underflows exactly when the specification's does |
| NetlinkAttrs.AppendThenParse | src/netlink.rs:2460-2632 | round trip: after any appends that fit a zeroed buffer, parsing finds for every type the first attribute appended with it; bytes come back zero-padded, 32-bit and 64-bit values exactly, 8-bit and 16-bit ones never |
| NetlinkDump.ScanDatagram | src/netlink.rs:1323-1365 | the inner loop computes the scan of one datagram, with its errors, and with an outcome for the underflow |
| NetlinkDump.RecvDumpMessage | src/netlink.rs:1316-1384 | the outer loop computes the reception of the whole stream and the datagrams it consumes |
| NetlinkDump.JudgeByFirstTerminal | src/netlink.rs:1328-1365 | the simple reading of a dump in closed form: the first ending message of ours decides, our messages before it are the answer |
| NetlinkDump.ReceiveIsJudge | src/netlink.rs:1316-1384 | refinement: over well-formed datagrams, reception is the simple reading of all messages in order, however cut, and consumes exactly the datagrams up to the one that ends the dump |
| NetlinkDump.OnlyOwnMessages | src/netlink.rs:1328-1375 | over any stream, only messages with our pid and this dump's number are returned, none an error, the last and only the last a DONE |
| NetlinkBytes.DecodeOfCarried | src/netlink.rs:937-943 | round trip: bytes that hold length, type, flags, sequence number and pid as 4, 2, 2, 4 and 4 bytes, then the body, are decoded to exactly that message, whatever surrounds them |
| NetlinkBytes.EveryDatagramCarries | src/netlink.rs:838-857 | every whole datagram consists of such bytes for some list of messages |
| NetlinkBytes.MessagesOfCarried | src/netlink.rs:838-857 | and is read as that list |
| NetlinkBytes.DumpIsRead | src/netlink.rs:1316-1384 | reception from the bytes on: over datagrams that carry lists of messages, the first with our pid, this dump's number and type 2 or 3 decides: 3 ends the dump with our messages so far, 2 fails with the signed number in the body's first four bytes, or as truncated below 20 bytes; without one the call waits on |
| NetlinkBytes.StreamsBreak | src/netlink.rs:1318-1382 | otherwise a dump fails by an error of receiving, by bytes left over behind the last message, or by a last message without its padding |
| NetlinkBytes.DoneEndsTheDump | src/netlink.rs:1329-1351 | for instance the sixteen bytes of the message that ends dump 7 on the socket with pid 42 |
| NetlinkDump.SequenceNumber | src/netlink.rs:1502-1522 | after n requests the counter has moved by n, modulo 2^32 |
| NetlinkDump.SameNumberExactly | src/netlink.rs:2158-2179 | two requests of a run carry the same number if and only if their distance is a multiple of 2^32 |
| NetlinkDump.NoStaleReplies | src/netlink.rs:1329-1332 | a dump never returns a message that echoes an earlier request of the run, unless the counter went round exactly |
| NetlinkDump.DumpNumber | src/netlink.rs:2375-2377 | the remembered number is that of the last request that was not a talk |
| NetlinkDump.RtnlHandle.Dump | src/netlink.rs:1502-1547 | a dump takes the next number and remembers it; when sending fails it fails with that error, otherwise it returns what reception with its number yields |
| NetlinkDump.RtnlHandle.BeginTalk | src/netlink.rs:1619-1620 | other requests take the next number and leave the remembered one |
| NetlinkDump.RtnlHandle.BeginRouteChange | src/netlink.rs:2375-2377 | route changes take the next number and remember it like dumps |
| NetlinkTalk.ScanReply | src/netlink.rs:1661-1708 | the inner loop computes the verdict on a datagram: its first message for this socket decides, and no message is an error |
| NetlinkTalk.FirstDecides | src/netlink.rs:1661-1708 | over whole datagrams that is the first of the messages, in order, with the socket's pid |
| NetlinkBytes.AnswerIsJudged | src/netlink.rs:1661-1708 | from the bytes on: the first message with the socket's pid decides; type 2 is an acknowledgement when the body's first four bytes are zero, otherwise a refusal with the signed number in them, or truncated below 20 bytes; any other type is the answer if one is wanted and acceptance if not; without one nobody answers |
| NetlinkBytes.LastIsJudged | src/netlink.rs:1661-1668 | a message whose padding is missing is judged the same way, but passing it over overruns |
| NetlinkBytes.AnswersInBytes | src/netlink.rs:1669-1690 | for instance the bytes of an acknowledgement and of the refusal with -17 |
| NetlinkTalk.Socket.RtnlTalk | src/netlink.rs:1646-1716 | a talk sends, then receives one datagram, the first that waits, and judges it; when receiving fails, what has arrived stays |
| NetlinkTalk.QueueIs | src/netlink.rs:1646-1716 | over every run, what waits are the answers to the last requests that went out, one for each receive that has failed since the last dump |
| NetlinkTalk.JudgesLagging | src/netlink.rs:1657-1666 | an attempt judges the answer to the request that went out as many requests earlier as receives have failed since the last dump |
| NetlinkTalk.TalksAreOwnExactly | src/netlink.rs:1646-1716 | over every run of talks and dumps, every talk that receives judges its own answer if and only if, whenever a receive has failed after its request went out, a dump is answered to its end before the next talk receives |
| NetlinkTalk.DumpDrains | src/netlink.rs:1316-1384 | a dump that is answered to its end reads away whatever waited before it |
| NetlinkTalk.NumbersWouldTell | src/netlink.rs:1664-1667 | the sequence numbers, which the code does not compare, differ exactly when the answer is another request's, within 2^32 requests |
| NetlinkTalk.RefusalIsMissed | src/netlink.rs:1669-1696 | a run in which a refused request is taken for accepted |
| NetlinkRoutes.RtnlHandle.DeleteAllRoutes | src/netlink.rs:2275-2290 | deletions are sent for the listed routes by name and protocol, up to the first failure |
| NetlinkRoutes.RtnlHandle.UpdateRoutes | src/netlink.rs:2433-2452 | the whole update performs the plan: deletions, then routes without a gateway, then those with one, stopping at the first failure; it fails before sending anything when the table cannot be listed |
| NetlinkRoutes.PerformIsPrefix | src/netlink.rs:2433-2452 | whatever fails, what was sent is a prefix of the plan; success if and only if nothing stops or is refused |
| NetlinkRoutes.KindsPartition | src/netlink.rs:2437-2449 | the two passes rearrange the request as a permutation, every route in the pass of its kind |
| NetlinkRoutes.UpdateExactly | src/netlink.rs:2433-2452 | success exactly when every listed device has a name, every route translates and nothing is refused; then the changes are the deletions of exactly the listed routes of protocol other than 2 in whose device names neither "lo" nor "::1" occurs, in listing order, then the additions without and with gateway |
| NetlinkRoutes.DeletesStop | src/netlink.rs:2275-2290 | deleting stops at the first listed route whose device has no name, and at the first deletion that is refused, which has been sent; everything before it is done and nothing after it |
| NetlinkRoutes.AddsStop | src/netlink.rs:2437-2449 | each pass of additions stops the same way, at the first route that does not translate or is refused |
| NetlinkRoutes.UpdateStops | src/netlink.rs:2433-2452 | a pass that fails ends the update |
| NetlinkRoutes.TableAfterUpdate | src/netlink.rs:2275-2452 | for every kernel that carries out the update, answering each deletion by removing at least one route equal to it up to the protocol and no other: the table always ends as kept plus requested routes if and only if no kept route differs from a removable one in its protocol alone |
| NetlinkRoutes.ConflictLosesARoute | src/netlink.rs:2283-2285 | for every table with such a pair, a kernel that carries out every deletion and loses the kept route |
| NetlinkRoutes.PlanRuns | src/netlink.rs:2275-2290 | a complete listing leaves every deletion a route to remove, so a kernel that carries out the whole update exists |
| NetlinkRoutes.ConflictExists | src/netlink.rs:2279-2285 | every removable route makes such a table together with its kernel-made twin |
| Devices.LinuxSpec.UpdateNumbers | src/device.rs:287-324 | the nested loops apply one renumbering to devices and cgroup entries in place |
| Devices.LinuxSpec.RenumberCgroups | src/device.rs:304-321 | every cgroup entry with the host number takes the VM number, in place |
| Devices.AddDevices | src/device.rs:381-391 | devices are applied in order up to the first one that fails, with that failure |
| Devices.IncompleteIsRefused | src/device.rs:393-421 | a device without a type, without id and path, or without a container path is refused, in this order, before anything else about it is looked at |
| Devices.DriversDecide | src/device.rs:330-424 | "blk" takes the node of the PCI id and "scsi" that of the SCSI id, failing where there is none, "mmioblk" and "nvdimm" the given path, which "mmioblk" demands; any other driver is refused; the node's number goes to the container path unless the spec has no linux part or the node does not exist, in this order |
| Devices.UpdateAllInTurn | src/device.rs:287-391 | what a whole request does: spec devices end as if renamed at once, cgroup entries as renamed in turn |
| Devices.AgreeExactly | src/device.rs:304-321 | renaming in turn equals renaming at once for every number if and only if no effective renaming's result is renamed on |
| Devices.SequentialIsSimultaneousExactly | src/device.rs:287-391 | with distinct container paths, device-by-device renumbering equals one simultaneous renumbering of every cgroup list if and only if results stay; all other fields, lengths and order are kept |
| Devices.SequentialIsSimultaneousWithoutChain | src/device.rs:287-391 | when no effective renaming's VM number is a later one's host number, the two agree for every cgroup list, also when VM numbers are shared |
| Devices.ChainsMakeTheDifference | src/device.rs:287-391 | with distinct host numbers they agree for every cgroup list if and only if every such chain is idle, that is leads on to the same number |
| Devices.ChainedRenumbering | src/device.rs:287-324 | a chain of two devices sends the first one's entry to the second one's number |
| ProcessReaper.Sandbox.constructor | src/sandbox.rs:46-70 | an empty sandbox satisfies the invariant |
| ProcessReaper.Sandbox.FindProcess | src/sandbox.rs:166-174 | finds a container holding the process id, or there is none |
| ProcessReaper.Sandbox.RecordExit | src/main.rs:217-244 | the locked block of the reaper: an exit's code or a killing signal's number is recorded and the pipe closed, or nothing happens when the process is unknown, has no pipe or reports another status |
| ProcessReaper.Sandbox.ReapOne | src/main.rs:189-246 | reaping one child is a Collect step and then a Record or Unknown step |
| ProcessReaper.Sandbox.ReapAll | src/main.rs:183-247 | one activation drains every exited child; from a state with the invariant and no missed exit, the states on the way are faithful if and only if it neither misrecords nor passes an exit over, and then each tracked ended process has its own exit's code recorded and its pipe closed; with unique process ids that is always so |
| ProcessReaper.Sandbox.TakeStatus | src/grpc.rs:346-379 | the end of a wait closes every parent-side descriptor that is set, once, removes the process and returns the recorded code |
| ProcessReaper.Sandbox.FinishWait | src/grpc.rs:347-381 | that block is one WaitFinish step, keeping the invariants it finds |
| ProcessReaper.Sandbox.DropStdin | src/grpc.rs:891-899 | closing stdin closes terminal and stdin if set, and unsets them |
| ProcessReaper.Sandbox.CloseStdinOf | src/grpc.rs:872-899 | for an unknown process an error and no change; otherwise one CloseStdin step, keeping the invariants it finds |
| ProcessSteps.CoreKept | src/grpc.rs:108-142 | every step of forking, exiting, reaping, waiting, closing and removing that does not write a status down in the wrong place keeps the invariant; if it does not pass a collected exit over either, no exit is missed |
| ProcessSteps.StepFaithfulExactly | src/main.rs:206-244 | from a state with the invariant and no missed exit, a step leads to a faithful state (pipes closed once and for their own exit, codes honest, no exit missed) if and only if the reaper neither writes a status down for another process than it collected nor passes that one over |
| ProcessWaits.StepKeepsWaitsExactly | src/grpc.rs:310-381 | a step leaves every waiting call its process if and only if it does not remove or replace the record some call waits on |
| ProcessWaits.InvKept | src/grpc.rs:108-142 | every careful step keeps all of it, with process ids unique among tracked processes |
| ProcessRuns.FaithfulExactly | src/main.rs:183-247 | over every run: every state is faithful if and only if no Record step writes a status down for another process than the one collected, and none passes the collected one over |
| ProcessRuns.HonestExactly | src/sandbox.rs:166-174 | over every run that passes no exit over: each pipe is closed at most once and every recorded code is the process's own exit's, if and only if no recordable Record step finds a process of another birth than the corpse's |
| ProcessRuns.CoincidenceHidesMisrecord | src/sandbox.rs:166-174 | why exits passed over are excluded there: a run in which a status written down in the wrong place happens to be the one that is missing |
| ProcessRuns.ReusedPidLosesExit | src/sandbox.rs:166-174 | a concrete run: a reused process id closes one pipe twice and loses the other exit |
| ProcessRuns.WaitsKeepExactly | src/grpc.rs:310-381 | over every run, every waiting call still finds its process if and only if no step removes or replaces it |
| ProcessRuns.ExitStatusAgreement | src/grpc.rs:330-381 | in every interleaving without misrecorded statuses and disturbed waits, a piped wait passes the pipe only after the reaper closed it, and returns exactly the code its process exited with or the signal that killed it |
| ProcessRuns.StatusReturned | src/grpc.rs:310-381 | the same from the beginning of the call: whoever begins to wait at a process with the read end of an exit pipe can only be told how that process ended |
| ProcessRuns.NoExitMissed | src/grpc.rs:108-142 | in every interleaving without misrecorded or passed-over exits, once nothing is uncollected every tracked ended process with a pipe has its code recorded and its pipe closed, however early it died |
| ProcessRuns.DescriptorConservation | src/grpc.rs:352-379 | in every interleaving without misrecorded statuses, each descriptor is closed at most once and only if it was handed out; without disturbed waits, after a wait on a process with an exit pipe each of its descriptors has been closed exactly once |
| ProcessRuns.CarefulIsSafe | src/main.rs:183-247 | with fresh container ids, no process id reused while tracked, one waiter per process and no removal under a waiter, none of these steps occurs and the whole invariant holds |
| CopyFile.FileSystem.DoCopyFile | src/grpc.rs:1687-1750 | one request: its checks, its write at the offset, and the renaming when the announced size is reached |
| CopyFile.OnlyBelowTheBase | src/grpc.rs:1687-1692 | a request is refused without changing a file exactly when its target's first components are not "run" and "agent" |
| CopyFile.SiblingIsRefused | src/grpc.rs:1690 | in particular a target in the directory /run/agentx |
| CopyFile.NegativeOffset | src/grpc.rs:1720-1725 | a negative offset is an error exactly when there is data, and by then the temporary file is there |
| CopyFile.WrittenAt | src/grpc.rs:1725 | writing at an offset, byte by byte: the data there, the old content elsewhere, zeros in a gap |
| CopyFile.PlainNames | src/grpc.rs:1717-1718 | the temporary name of a file without an extension, also of one that only begins with a dot |
| CopyFile.Collecting | src/grpc.rs:1717-1732 | while the size is not reached, only the temporary file has changed, and holds the chunks over what was left in it |
| CopyFile.TransferIsAtomic | src/grpc.rs:1717-1747 | the target keeps its content until the last chunk and then is the concatenation, with no temporary and no other trace |
| CopyFile.TransferIsAtomicExactly | src/grpc.rs:1717-1747 | for a target that is not its own temporary, that holds if and only if a left-over temporary is no longer than the file and, unless one chunk is everything, shorter, and the last chunk is not empty |
| CopyFile.WritingInPlace | src/grpc.rs:1717-1747 | a target whose name ends in .tmp is its own temporary: every chunk shows in it at once |
| CopyFile.InPlaceIsAtomicExactly | src/grpc.rs:1717-1747 | such a target keeps its content until the last chunk and then is the file if and only if the file is no shorter than what was there and everything before the last chunk repeats what was there |
| CopyFile.HandleTouchesItsOwn | src/grpc.rs:1717-1747 | a request changes at most its target and its temporary |
| CopyFile.HandleSeesItsOwn | src/grpc.rs:1717-1747 | a request's effect and result depend on those two files alone |
| CopyFile.TransfersDoNotInterfere | src/grpc.rs:1687-1750 | in any interleaving, a target and its temporary end as their own requests alone would have left them |
| CopyFile.InterleavedTransferDelivers | src/grpc.rs:1687-1750 | a transfer among others leaves its target unchanged until its own last chunk and then delivers its file |
| CopyFile.SiblingsShareTmp | src/grpc.rs:1717-1718 | files that differ only in their extension share a temporary name |
| CopyFile.SharedTmpLosesData | src/grpc.rs:1717-1747 | for any two ready targets with one temporary name: a schedule in which the first file arrives without its first chunk |
| CopyFile.BothDeliveredExactly | src/grpc.rs:1687-1750 | for two request paths with ready targets that are not their own temporaries, every interleaving of every two complete transfers delivers both if and only if the two targets and the two temporaries are disjoint |
| ProtoWire.ReadFieldOfEncode | protocols/src/agent.rs:3053-3061 | reading a written field gives the field and leaves what follows |
| ProtoWire.MergeOfEncode | protocols/src/agent.rs:3052-3086 | merging what was written applies exactly the written fields, in order |
| ProtoWire.MergeOfConcatenation | protocols/src/agent.rs:3052-3086 | merging one input after another is merging their concatenation, for every message and all bytes |
| ProtoWire.UnknownSurvive | protocols/src/agent.rs:3080-3082 | for every message that keeps unknown fields in a list the others do not touch: whatever fields come in whatever order, the known ones among them decide what is read, and the unknown ones are kept, all and in order |
| ProtoBytes.VarintDigits | protocols/src/agent.rs:3109-3124 | byte i of a varint holds the i-th digit to the base 128, its top bit is set exactly when another byte follows, and there are no more than the number needs |
| ProtoBytes.ReadVarintExactly | protocols/src/agent.rs:3052-3086 | reading takes the bytes up to the first without the top bit, one of the first ten, and keeps 64 bits of their digits; it fails exactly when there is none |
| ProtoBytes.FieldIsRead | protocols/src/agent.rs:3052-3086 | what each tag introduces: wire types 0, 1, 2 and 5, with field numbers other than zero, in tags of 32 bits; everything else is refused |
| ProtoStream.SizeIsLength | protocols/src/agent.rs:3090-3107 | the computed sizes add up to the number of bytes written |
| ProtoRoundTrip.UsageRoundTrip | protocols/src/agent.rs:3052-3124 | CpuUsage: merging the encoding into a new message gives the original, with its unknown fields |
| ProtoRoundTrip.PackedUsageIsRead | protocols/src/agent.rs:3063-3065 | packed per-CPU values are read like separate ones |
| ProtoRoundTrip.ThrottlingRoundTrip | protocols/src/agent.rs:3299-3362 | the same for ThrottlingData |
| ProtoRoundTrip.StatsRoundTrip | protocols/src/agent.rs:3561-3609 | the same for CpuStats with its nested messages |
| ProtoRoundTrip.UserRoundTrip | protocols/src/agent.rs:11821-11872 | the same for StringUser |
| ProtoRoundTrip.DevRoundTrip | protocols/src/agent.rs:11539-11608 | the same for Device |
| ProtoRoundTrip.StoreRoundTrip | protocols/src/agent.rs:11188-11266 | the same for Storage |
| ProtoRoundTrip.CreationRoundTrip | protocols/src/agent.rs:259-362 | the same for CreateContainerRequest, its OCI specification carried as opaque fields |
| ProtoRoundTrip.UsageUnknownSurvive | protocols/src/agent.rs:3080-3082 | the same for CpuUsage, whose reader is shown to treat its fields so |
| ProtoRoundTrip.ThrottlingUnknownSurvive | protocols/src/agent.rs:3299-3325 | the same for ThrottlingData |
| ProtoRoundTrip.StatsUnknownSurvive | protocols/src/agent.rs:3561-3577 | the same for CpuStats |
| ProtoRoundTrip.UserUnknownSurvive | protocols/src/agent.rs:11821-11840 | the same for StringUser |
| ProtoRoundTrip.DevUnknownSurvive | protocols/src/agent.rs:11539-11564 | the same for Device |
| ProtoRoundTrip.StoreUnknownSurvive | protocols/src/agent.rs:11188-11216 | the same for Storage |
| ProtoRoundTrip.CreationUnknownSurvive | protocols/src/agent.rs:289-291 | the same for CreateContainerRequest |
| ProtoRoundTrip.UsageForwards | protocols/src/agent.rs:3052-3124 | whatever bytes are read, writing the message and reading it again gives the same message, unknown fields included |
| ProtoRoundTrip.ThrottlingForwards | protocols/src/agent.rs:3299-3362 | the same for ThrottlingData |
| ProtoRoundTrip.StatsForwards | protocols/src/agent.rs:3561-3609 | the same for CpuStats, at both levels |
| ProtoRoundTrip.UserForwards | protocols/src/agent.rs:11821-11872 | the same for StringUser |
| ProtoRoundTrip.DevForwards | protocols/src/agent.rs:11539-11608 | the same for Device |
| ProtoRoundTrip.StoreForwards | protocols/src/agent.rs:11188-11266 | the same for Storage |
| ProtoRoundTrip.CreationForwards | protocols/src/agent.rs:259-362 | the same for CreateContainerRequest, at both levels, its OCI specification carried as opaque fields |
| ProtoBytes.UsageInBytes | protocols/src/agent.rs:3109-3124 | the bytes that are written for every CpuUsage, with the tags in figures |
| ProtoBytes.UsageTakes | protocols/src/agent.rs:3052-3086 | what the bytes of each known field change when they are read into any CpuUsage |
| ProtoBytes.ThrottlingInBytes | protocols/src/agent.rs:3350-3362 | the bytes that are written for every ThrottlingData, with the tags in figures |
| ProtoBytes.ThrottlingTakes | protocols/src/agent.rs:3299-3325 | what the bytes of each known field change when they are read into any ThrottlingData |
| ProtoBytes.StatsInBytes | protocols/src/agent.rs:3596-3609 | the bytes that are written for every CpuStats, with the tags in figures |
| ProtoBytes.StatsTakes | protocols/src/agent.rs:3561-3577 | what the bytes of each known field change when they are read into any CpuStats |
| ProtoBytes.UserInBytes | protocols/src/agent.rs:11860-11872 | the bytes that are written for every StringUser, with the tags in figures |
| ProtoBytes.UserTakes | protocols/src/agent.rs:11821-11840 | what the bytes of each known field change when they are read into any StringUser |
| ProtoBytes.DevInBytes | protocols/src/agent.rs:11590-11608 | the bytes that are written for every Device, with the tags in figures |
| ProtoBytes.DevTakes | protocols/src/agent.rs:11539-11564 | what the bytes of each known field change when they are read into any Device |
| ProtoBytes.StoreInBytes | protocols/src/agent.rs:11245-11266 | the bytes that are written for every Storage, with the tags in figures |
| ProtoBytes.StoreTakes | protocols/src/agent.rs:11188-11216 | what the bytes of each known field change when they are read into any Storage |
| ProtoBytes.CreationInBytes | protocols/src/agent.rs:330-362 | the bytes that are written for every CreateContainerRequest, with the tags in figures |
| ProtoBytes.CreationTakes | protocols/src/agent.rs:259-294 | what the bytes of each known field change when they are read into any CreateContainerRequest |
| ProtoBytes.WrongTypesAreRefused | protocols/src/agent.rs:3052-3086 | a known field of another wire type makes reading fail, in every message |
| ProtoBytes.TwoByteExample | protocols/src/agent.rs:3109-3124 | three hundred nanoseconds in kernel mode are the bytes 18 AC 02, written and read |
| ProtoBytes.CreationExample | protocols/src/agent.rs:330-362 | the bytes of a small request, written and read |
| ProtoStats.CpuUsage.ComputeSize | protocols/src/agent.rs:3090-3107 | the size is exactly the length of the encoding, unknown fields counted, and is cached |
| ProtoStats.CpuUsage.WriteTo | protocols/src/agent.rs:3109-3124 | writes exactly the encoding: the object's fields under their tags 08, 10, 18 and 20, unknown fields last |
| ProtoStats.CpuUsage.MergeFrom | protocols/src/agent.rs:3052-3086 | over any bytes, the loop computes the merge, keeping unknown fields, or fails exactly when it does |
| ProtoStats.CpuStats.ComputeSize | protocols/src/agent.rs:3581-3594 | the size is the length of the encoding, and every nested message is left with its own size cached |
| ProtoStats.CpuStats.WriteTo | protocols/src/agent.rs:3596-3609 | writes nested messages with the cached sizes as length prefixes, right or wrong |
| ProtoStats.CpuStats.WriteToBytes | protocols/src/agent.rs:3581-3609 | both passes write the encoding, as many bytes as announced, and merging them gives the message back |
| ProtoStats.CpuStats.MergeFrom | protocols/src/agent.rs:3561-3577 | over any bytes, the loop computes the merge including nested messages, or fails exactly when it does |
| ProtoStats.StatsWrittenExactly | protocols/src/agent.rs:3596-3609 | what is written is the message if and only if the cached sizes are those of the nested messages now |
| ProtoStats.StaleSizeIsUnreadable | protocols/src/agent.rs:3596-3609 | such an output: a field set after sizes were computed makes what the second pass writes unreadable |
| ProtoRequests.Storage.ComputeSize | protocols/src/agent.rs:11220-11243 | the size is exactly the length of the encoding, unknown fields counted, and is cached |
| ProtoRequests.Storage.WriteTo | protocols/src/agent.rs:11245-11266 | writes exactly the encoding: the object's fields under their tags 0A to 32, unknown fields last |
| ProtoRequests.Storage.MergeFrom | protocols/src/agent.rs:11188-11216 | over any bytes, the loop computes the merge, keeping unknown fields, or fails exactly when it does |
| ProtoRequests.CreateContainerRequest.ComputeSize | protocols/src/agent.rs:298-328 | the size is the length of the encoding, and every nested message is left with its own size cached |
| ProtoRequests.CreateContainerRequest.WriteTo | protocols/src/agent.rs:330-362 | writes the request with the cached sizes as length prefixes, right or wrong |
| ProtoRequests.CreateContainerRequest.WriteToBytes | protocols/src/agent.rs:298-362 | both passes write the encoding, as many bytes as announced, and merging them gives the request back |
| ProtoRequests.CreateContainerRequest.MergeFrom | protocols/src/agent.rs:259-294 | over any bytes, the loop computes the merge including nested messages and unknown fields, or fails exactly when it does |
| ProtoRequests.CreationWrittenExactly | protocols/src/agent.rs:330-362 | what is written is the request if and only if every cached size is that of its nested message now |
| SandboxStorage.Sandbox.SetSandboxStorage | src/sandbox.rs:184-195 | inserts with 1 and answers true, or increments and answers false |
| SandboxStorage.Sandbox.UnsetSandboxStorage | src/sandbox.rs:84-95 | answers false for an unknown path; otherwise decrements, removes at zero, and answers true |
| SandboxStorage.CountsAreUsersExactly | src/sandbox.rs:84-95 | over every run, a path is listed exactly while it has users and with their number, if and only if no path ever has 2^32 users |
| SandboxStorage.AnswersAreTransitions | src/sandbox.rs:184-195 | set answers true exactly for the first user, unset exactly when there was one; other paths keep their counts |
| SandboxStorage.UnsetKeepsItsPromiseExactly | src/sandbox.rs:75-95 | the documented meaning of true (nobody uses the storage) holds if and only if at most one user was left |
| ContainerStorages.Sandbox.AddStorages | src/mount.rs:252-299 | ephemeral storages are counted and mounted for the first user only, local ones counted, others mounted; what was mounted is listed |
| ContainerStorages.Sandbox.CreateContainer | src/grpc.rs:106-111 | creation adds the storages and keeps their list under the container's id |
| ContainerStorages.AddedExactly | src/mount.rs:252-299 | for any requests: an ephemeral path is mounted for the first that asks for it, if it is not counted yet, a local one never, any other each time; what is mounted is noted in request order, and each ephemeral and local request counts one user |
| ContainerStorages.Sandbox.RemoveMounts | src/mount.rs:642-647 | unmounts path after path, up to the first that is not mounted |
| ContainerStorages.Sandbox.RemoveContainer | src/grpc.rs:170-198 | removal unmounts the list, then uncounts what is counted in it and unmounts that again; the first failure ends it half done |
| ContainerStorages.RemovalInStages | src/grpc.rs:170-198 | the state after a removal by how far it comes: nothing listed, a path that cannot be unmounted, a counted one that cannot be released, or all of it |
| ContainerStorages.UnmountedExactly | src/mount.rs:642-647 | unmounting stops at the first path that is not mounted any more |
| ContainerStorages.ReleasedExactly | src/sandbox.rs:102-120 | of different counted paths, each loses one user and is unmounted, up to the first with nothing mounted on it, which still loses its user |
| ContainerStorages.InvAlways | src/mount.rs:252-266 | over every run, each ephemeral path is mounted once at most, is counted while it is mounted, and is listed once by whoever lists it |
| ContainerStorages.RemovalSucceedsExactly | src/sandbox.rs:102-120 | when everything a container lists is mounted just for it, its removal succeeds if and only if none of it is counted as a sandbox storage |
| ContainerStorages.OwnerIsNotRemoved | src/sandbox.rs:102-120 | the removal of the container that an ephemeral storage was mounted for always fails and leaves the container in place |
| ContainerStorages.OwnersStay | src/grpc.rs:174-198 | over every run, such a container is never removed again |
| ContainerStorages.StepKeepsMountedExactly | src/grpc.rs:174-194 | a step leaves the storages of all living containers mounted if and only if it does not unmount one that another living container has, nor ask for one that is counted but not mounted |
| ContainerStorages.InUseIsMountedExactly | src/grpc.rs:174-194 | over every run, every ephemeral storage is mounted as long as a container lives that was created with it, if and only if no step does one of the two |
| ContainerStorages.SecondUserLosesStorage | src/mount.rs:252-266 | the smallest run that does: two containers share a storage and the first to come is removed first |
| MountOptions.ParseMountFlagsAndOptions | src/mount.rs:414-436 | the flags are the union of the recognised options' flags, the text is the other options joined by commas |
| MountOptions.FlagsByOption | src/mount.rs:51-88 | each of the eighteen flags is given exactly when one of its options is there, and an option is passed on as text exactly when it is none of these nor "defaults" |
| MountOptions.ClearingOptions | src/mount.rs:51-88 | the ten options that mean to clear their flags |
| MountOptions.FlagsIgnoreOrder | src/mount.rs:418-424 | order and repetition of options do not matter to the flags |
| MountOptions.SplitGivesBackExactly | src/mount.rs:425-431 | splitting the text on commas gives back the unrecognised options in order if and only if there is one and none contains a comma |
| MountOptions.FlagsAsIntendedExactly | src/mount.rs:414-436 | the flags are what the table means, a clearing option taking its flags away again, if and only if every flag of every clearing option is set by a later option that does not clear |
| MountOptions.ReadWriteStaysReadOnly | src/mount.rs:51-88 | an input on which they differ: "ro" and then "rw" leaves the mount read-only |

## Left out

- System calls, sockets, gRPC plumbing, logging, and everything in `rustjail`: starting a process is the assumption
  that its record is entered under the sandbox lock.
- Hotplug: the channel library, so receiving and timing out are steps without a method, and a channel whose sender is
  gone fails by the same step as a timeout, sooner in fact; how long a wait lasts; the sysfs writes that make the
  kernel scan, and the reading of sysfs that finds a bridge's bus. The root bus is that of x86; ARM has another path.
- Netlink: building request headers, decoding links, addresses and routes into structures, address text, and IPv6.
  Integers are little-endian, as on the VM's architectures.
- NetlinkTalk.Socket.RtnlTalk: the kernel answers a request with one datagram; datagrams from other senders, and dumps
  that break off, are not part of the runs.
- NetlinkAttrs.ParseAttrs: what a release build reads once the remaining length has wrapped.
- NetlinkDump.ScanDatagram: the same.
- NetlinkRoutes.TableAfterUpdate: which of the fitting routes a deletion removes is the kernel's choice, so the lemma
  speaks of all choices; that it removes one of them, refuses a deletion that fits none, and lists each route once, is
  taken from the kernel's interface, not from this repository.
- NetlinkRoutes.ConflictLosesARoute: the same.
- NetlinkRoutes.RtnlHandle.UpdateRoutes: the translation from request routes to kernel routes is a map, absent where
  the code unwraps a failed parse; the listing of the table, or its failure, is a parameter.
- Devices.AddDevices: the hotplug wait behind a device id, and the major and minor numbers of a VM path, are maps.
- Processes: descriptors are named by process and role, not by the integers the kernel reuses; that the child does not
  hold the pipe's write end open is assumed; `Remove` stands for the removal of a container without its mounts. A
  container id is new when a container is created, as the runtime's own ids are.
- ProcessReaper.Sandbox.ReapAll: one activation without interleaving; the state machine covers every interleaving of its
  steps with other threads.
- CopyFile.FileSystem.DoCopyFile: creating the parent directory, modes and owners, file-system errors, and links that
  change during a transfer.
- Protocol Buffers primitives follow the public Encoding guide; the library's code is not part of this model. Groups
  count as malformed, and after an error nothing is said about what a message contains.
- ProtoStats.CpuUsage.WriteTo: unknown fields are written in the order they came, which is the order kept within each
  number and kind; the library groups them by number and kind.
- ProtoRequests.Storage.WriteTo: the same.
- ProtoRequests.Storage.MergeFrom: text is taken as it comes; the library also refuses what is not UTF-8.
- ProtoRequests.CreateContainerRequest.MergeFrom: the same; and of the OCI specification (field 6) the fields are kept
  without being told apart: its messages (protocols/src/oci.rs) are not modelled.
- ProtoRequests.CreateContainerRequest.WriteToBytes: the same about the OCI specification.
- ProtoRoundTrip.CreationRoundTrip: the same.
- ProtoRoundTrip.CreationForwards: the same.
- ProtoStats.CpuUsage.ComputeSize: like all first passes, for messages of less than 2^32 bytes, where the 32-bit sum
  does not wrap.
- ContainerStorages: mounting always succeeds, unmounting fails exactly where nothing is mounted, and destroying a
  container succeeds; creation is one step, although it takes the lock once for each storage; a creation that fails
  half-way, the directories of local storages and the waiting for block devices are left out.
- `get_cgroup_mounts`, interfaces and addresses, the debug console, and command-line
  parsing would add only easy members.
