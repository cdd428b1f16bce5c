# WebHID daemon and add-on: a verified model

This project models the parts of the WebHID daemon (Rust) and of its browser add-on (JavaScript) in
which state, encodings or interleavings are hardest to get right, and proves what they promise.
`dafny verify dfyconfig.toml` checks all of it.

**Session lifecycle.** `Registry.dfy` has the daemon's tables as one value and each section under the
`lifecycle` mutex as a function on it; `DeviceManager.dfy` is the object whose methods update the same
tables in place, with their loops, each proved to compute its section's function. `Lifecycle.dfy` is the
whole daemon as a state machine: openers between their critical sections, reservations, physical
lifetimes with their command queues and readers, senders between snapshot and send, teardowns that have
left the lock. `LifecycleInvariant.dfy` and `LifecycleSteps.dfy` prove an inductive invariant over all
steps; `LifecycleTheorems.dfy`, `LifecycleBuilders.dfy` (what became of entries), `LifecycleOutcomes.dfy`
(what `open` answers) and `LifecycleCommands.dfy` (the way of a command) what follows for every run, and
`LifecycleReader.dfy` and `LifecycleSuccessors.dfy` what a reader of an earlier lifetime can do.
A validity cell shared by reference in the code is an index into a list of cells; tokens are fresh
because a token is the number of the `open` call that drew it; the auth hash is injective.

**Collections on the wire.** `Tlv.dfy` says which bytes a collection tree is and what a reader makes of
it; `TlvEncoder.dfy`, `TlvDecoder.dfy` and `TlvPageDecoder.dfy` are the encoder and the two decoders as
they run. `TlvAgreement.dfy` says exactly when a round trip is lossless and when both decoders agree;
`TlvUnambiguous.dfy` that bytes and normal forms correspond one to one.

**Directive prologue.** `WorkerSource.dfy` specifies the scan (directive prologues are section 11.2.1 of
ECMA-262, 2021 edition onwards), `WorkerScanner.dfy` has its loops, `WorkerStreaming.dfy` compares
prefixes with extensions, `WorkerPending.dfy` says when an answer has to wait, and `WorkerPrologue.dfy`
which offset is answered, by a grammar of its own.

**Report protection.** `Blocklist.dfy`, `ReportBlocking.dfy` and `ReportBlockingTheorems.dfy`: the rule
table, the association map, pruning, the send check and the reader's filter. `ReportProtection.dfy` says
what they decide on a tree, by the ways down to a report.

**Report transport.** `NmFrames.dfy` and `NmWriter.dfy` (packed frames and their coalescing),
`BatchFrames.dfy` and `Sender.dfy` (batches and the task that sends them), `WtFraming.dfy` (frames on a
stream), `WtClient.dfy` and `WtTransport.dfy` (the reconnecting client, as a state machine and as an
object with re-entrant callbacks).

**Descriptor shaping.** `Fields.dfy`, `FieldsTheorems.dfy` and `FieldsAttributes.dfy` (aggregation of
fields), `ItemWalk.dfy` (the two walks over descriptor items, HID 1.11 sections 6.2.2.2 and 6.2.2.3) and
`ItemStream.dfy` (what they make of a list of items).

## Where the code does less than one might expect

- The cleanup of a dead reader goes by device id, not by lifetime. A reader that meets its error while
  its device is closed and opened again tears down the new lifetime with its sessions
  (`LifecycleReader.StaleReaderTearsDownSuccessor`); it takes down its own exactly when that is still
  the installed one, and what it takes down otherwise was published after its own had been taken out
  (`LifecycleSuccessors.VictimIsSuccessor`). Commands of torn-down sessions stay refused in that case too.
- The scanner's "invalid" on a prefix is not always final: `'a' i` is invalid, `'a' in x` is ready.
  `WorkerStreaming.InvalidStays` says exactly when. "Ready" can turn into "invalid", but into nothing
  else; `WorkerStreaming.ReadyStays` says exactly when. "Pending" can be given although nothing that
  follows can matter: after a code point escape with too many digits (`WorkerPending.PendingIff`, `WorkerPending.PendingForGood`).
- The page reads unit exponents from four bits and drops a byte order mark at the start of a string;
  `TlvAgreement.PageAgreesIff` makes the condition exact, `TlvAgreement.PageDiffers` has an input for each.
- A run of usages whose ids reach past 0xFFFF is taken for a range that does not name them. The model
  wraps the 16-bit sum, as an unchecked build does; a checked build stops there, and already where first
  id plus length is exactly 65536.
- A reconnect whose constructor throws leaves the WebTransport client without a timer and, unless the
  calls made in its `onClosed` end with a connect of their own, without a connection
  (`WtClient.FailedConstructorIsFinal`, `WtClient.ReconnectGivesUp`). An `onClosed` that throws after
  `willReconnect: true` leaves it without a timer too (`WtClient.WillReconnect`).
- On a protected interface without collections the reader's filter drops a declared, unprotected input
  report that the send check lets pass (`ReportBlockingTheorems.ReaderDisagrees`). Such a device exists:
  when the scan of its descriptor fails (`crates/webhid-daemon/src/hid.rs:302-311`) its collections are
  empty, while its map can still come from the raw descriptor
  (`crates/webhid-daemon/src/report_blocking.rs:38-42`). But `open` refuses a device without collections
  (`device_mgr.rs:1051-1055`, with `hid.rs:493`), so no running reader meets the case, and on a device
  with collections the two agree with any map (`ReportBlockingTheorems.ReaderAgreesOnOpened`).

## Model

| member | source | states |
|---|---|---|
| `RegistryInvariant.ValidIffCurrent` | crates/webhid-daemon/src/device_mgr.rs:73-99 | A validity cell is true if and only if what it was issued for is stored under its key and in force: a binding for the installed lifetime, the present sink and an active NM session, a capability for a live session in that mode at exactly that generation. |
| `RegistryInvariant.RefreshKeeps` | crates/webhid-daemon/src/device_mgr.rs:654-696 | Recomputing one binding makes it exact and leaves every other table and binding exact. |
| `RegistryOps.RegisterKeeps` | crates/webhid-daemon/src/device_mgr.rs:1187-1227 | A new session on an open device keeps every derived table exact. |
| `RegistryOps.PublishKeeps` | crates/webhid-daemon/src/device_mgr.rs:1133-1181 | Installing a first lifetime with its opener's session keeps every derived table exact. |
| `RegistryOps.SetModeKeeps` | crates/webhid-daemon/src/device_mgr.rs:1439-1480 | Switching the data plane keeps tables, capabilities and the counter exact. |
| `RegistryOps.ConnectKeeps` | crates/webhid-daemon/src/device_mgr.rs:1482-1544 | A WS or WT connection keeps tables, capabilities and the counter exact. |
| `RegistryOps.DisconnectKeeps` | crates/webhid-daemon/src/device_mgr.rs:1570-1654 | A transport's end, current or stale, keeps tables, capabilities and the counter exact. |
| `RegistryOps.CloseKeeps` | crates/webhid-daemon/src/device_mgr.rs:1341-1390 | Closing a session, the last one or not, keeps every derived table exact and settles the counter. |
| `RegistryOps.TearDownKeeps` | crates/webhid-daemon/src/device_mgr.rs:1681-1728 | Tearing a device down keeps every derived table exact, the counter being short by exactly the non-NM sessions that went. |
| `RegistryOps.RegisterSinkKeeps` | crates/webhid-daemon/src/device_mgr.rs:553-571 | Registering a sink, with the client's bindings refreshed in any order, keeps every binding exact. |
| `RegistryOps.RemoveSinkKeeps` | crates/webhid-daemon/src/device_mgr.rs:572-589 | Removing a sink keeps the tables exact: all of the client's bindings go and are invalidated. |
| `RegistryEffects.ConnectGrants` | crates/webhid-daemon/src/device_mgr.rs:1482-1544 | A capability is granted exactly on a live session of the device; it is valid for the next generation, every earlier capability of the session is revoked, and no other session changes. |
| `RegistryEffects.SetModeTakesEffect` | crates/webhid-daemon/src/device_mgr.rs:1439-1480 | The mode changes exactly for the owner of a live session on the device; all its capabilities are revoked; otherwise nothing changes. |
| `RegistryEffects.CloseDecides` | crates/webhid-daemon/src/device_mgr.rs:1341-1390 | A session is closed exactly for its owner on its device; it is the last one exactly when no other session is there, and only then is the entry handed out; otherwise nothing changes. |
| `RegistryEffects.CloseRevokes` | crates/webhid-daemon/src/device_mgr.rs:1341-1390 | After a close, no cell that was issued to the session or to its client on the device is valid. |
| `RegistryEffects.TearDownRevokes` | crates/webhid-daemon/src/device_mgr.rs:1681-1728 | After a teardown, no cell that was issued on the device is valid. |
| `RegistryEffects.CurrentIffGranted` | crates/webhid-daemon/src/device_mgr.rs:1570-1654 | The guard of a disconnect passes if and only if the presented capability is valid and was granted for exactly this session, device, plane and generation. |
| `DeviceManager.Manager.InvalidateNmHotForDevice` | crates/webhid-daemon/src/device_mgr.rs:625-637 | The loop over `nm_hot` removes and invalidates exactly the bindings on the device. |
| `DeviceManager.Manager.RefreshNmHot` | crates/webhid-daemon/src/device_mgr.rs:654-696 | The fields change as the section function says: old binding invalidated, new one only with sink, session and entry. |
| `DeviceManager.Manager.RegisterNmSink` | crates/webhid-daemon/src/device_mgr.rs:553-571 | The fields change as the section function says, for the order in which the devices were visited. |
| `DeviceManager.Manager.UnregisterNmSink` | crates/webhid-daemon/src/device_mgr.rs:572-589 | The sink and all bindings of the client are removed, and the bindings invalidated. |
| `DeviceManager.Manager.CloseSession` | crates/webhid-daemon/src/device_mgr.rs:1341-1390 | Fields and outcome are those of the section function, on every error path too. |
| `DeviceManager.Manager.TearDownDevice` | crates/webhid-daemon/src/device_mgr.rs:1681-1728 | Fields are those of the section function; the returned count is the number of non-NM sessions removed, the returned entry the one installed. |
| `DeviceManager.Manager.SetDataplaneMode` | crates/webhid-daemon/src/device_mgr.rs:1439-1480 | Fields and outcome are those of the section function, on every error path too. |
| `DeviceManager.Manager.ConnectTransport` | crates/webhid-daemon/src/device_mgr.rs:1482-1544 | Fields are those of the section function; the grant names the stored capability and the bumped generation. |
| `DeviceManager.Manager.DisconnectTransport` | crates/webhid-daemon/src/device_mgr.rs:1570-1654 | Fields are those of the section function; anything but the current capability changes nothing. |
| `DeviceManager.Manager.RegisterSession` | crates/webhid-daemon/src/device_mgr.rs:1187-1227 | Session, hash and binding are added as the section function says. |
| `DeviceManager.Manager.Install` | crates/webhid-daemon/src/device_mgr.rs:1133-1181 | The entry is installed only when no other session has opened the device, and then together with its session. |
| `DeviceManager.Manager.DeviceByWsAuth` | crates/webhid-daemon/src/device_mgr.rs:1774-1788 | A hash resolves exactly when a live session has it, and then to that session and its device. |
| `LifecycleSteps.StepKeeps` | crates/webhid-daemon/src/device_mgr.rs:457-1740 | Each of the 28 steps, inside and outside the lock, keeps the whole daemon invariant. |
| `LifecycleTheorems.RunKeeps` | crates/webhid-daemon/src/device_mgr.rs:457-1740 | Every state of every run satisfies the invariant. |
| `LifecycleTheorems.IndexesExact` | crates/webhid-daemon/src/device_mgr.rs:553-589 | In every run `nm_hot` has a key exactly for a client with a sink and an NM session, with the installed entry and present sink; the hash table is the inverse of the sessions' hashes; the installed devices are those of live sessions. |
| `LifecycleTheorems.CellValidIffCurrent` | crates/webhid-daemon/src/device_mgr.rs:591-623 | In every run, every cell ever issued, binding or capability, is valid exactly while it is the stored one and in force. |
| `LifecycleTheorems.AcceptedIffCurrent` | crates/webhid-daemon/src/device_mgr.rs:126-146 | The worker accepts a dequeued command exactly when its binding or capability is still current, and then its session is registered on that same installed lifetime; the epoch check never turns down a valid cell. |
| `LifecycleTheorems.NoStaleAuthority` | crates/webhid-daemon/src/device_mgr.rs:315-348 | Once a session was closed, no command under its capabilities, or under a binding its client had there, is ever accepted, however early it was snapshotted and however late it was queued. |
| `LifecycleTheorems.NoAuthoritySurvivesTearDown` | crates/webhid-daemon/src/device_mgr.rs:406-419 | Once a device was torn down by force or by its reader, nothing issued on it before is ever accepted, nor anything under a capability, earlier or later, of a session that went with it. |
| `LifecycleTheorems.TornTokenIsGone` | crates/webhid-daemon/src/device_mgr.rs:1681-1728 | A teardown leaves every token that was on the device gone for good. |
| `LifecycleTheorems.RunStaysGone` | crates/webhid-daemon/src/device_mgr.rs:1341-1390 | A closed session never comes back in any run. |
| `LifecycleTheorems.DisconnectActsIffGranted` | crates/webhid-daemon/src/device_mgr.rs:1570-1654 | In every run a disconnect acts if and only if its capability is the granted, valid one; otherwise the registry is unchanged, also when mode and generation have come back to the same values. |
| `LifecycleTheorems.OneCapabilityEach` | crates/webhid-daemon/src/device_mgr.rs:591-602 | No session ever has two valid capabilities. |
| `LifecycleTheorems.SingleFlight` | crates/webhid-daemon/src/device_mgr.rs:947-1030 | At most one opener of a device is between inserting and removing its reservation. |
| `LifecycleTheorems.HolderFindsDeviceAbsent` | crates/webhid-daemon/src/device_mgr.rs:1073-1090 | Until the holder publishes, its device is absent from `devices`, so both re-checks for another opener find none. |
| `LifecycleTheorems.InvalidatedNeverPublishes` | crates/webhid-daemon/src/device_mgr.rs:1133-1181 | A holder whose reservation was invalidated never publishes and never gets a session. |
| `LifecycleBuilders.FailedOpenStopsItsEntry` | crates/webhid-daemon/src/device_mgr.rs:1133-1181 | An open that fails leaves no running entry: whatever it built was stopped, exactly once. |
| `LifecycleBuilders.InvalidatedLeavesNothing` | crates/webhid-daemon/src/device_mgr.rs:406-431 | An entry built under a reservation that was invalidated before publishing is stopped exactly once by the time its opener is through. |
| `LifecycleBuilders.ClosedWhileOpeningFails` | crates/webhid-daemon/src/device_mgr.rs:1668-1740 | An opener whose device is closed by force between its reservation and its publication never gets a session and never installs its entry; once it is through it has answered failure, and everything it built was stopped exactly once. |
| `LifecycleBuilders.FailsBeforeBuilding` | crates/webhid-daemon/src/device_mgr.rs:1035-1090 | When the physical open fails, or the device is closed by force before the first check, no entry is ever built for the opener, it never gets a session, and it answers failure. |
| `LifecycleBuilders.WokenBy` | crates/webhid-daemon/src/device_mgr.rs:1009-1030 | A waiter is woken only by the opener that gives up its reservation, or by a forced close while that is stored. |
| `LifecycleBuilders.ForceCloseWakes` | crates/webhid-daemon/src/device_mgr.rs:1668-1680 | A forced close wakes every waiter on the stored reservation of the device. |
| `LifecycleOutcomes.OpenAnswersTruly` | crates/webhid-daemon/src/device_mgr.rs:939-1030 | An `open` answers success exactly when its session was put into the tables. |
| `LifecycleOutcomes.SessionSucceeded` | crates/webhid-daemon/src/device_mgr.rs:1187-1227 | A session belongs to an opener that succeeded, with the device and the client of that opener. |
| `LifecycleOutcomes.FailureHasReason` | crates/webhid-daemon/src/device_mgr.rs:939-1030 | An `open` answers failure only when its physical open failed, when its device was closed by force while it held the reservation, or when it woke up to a device that was neither open nor being opened. |
| `LifecycleCommands.CommandsInOrder` | crates/webhid-daemon/src/device_mgr.rs:126-146 | In every run the worker takes what was handed to its queue in order and each once, the rest is in the queue, and a request to stop is the last thing it takes. |
| `LifecycleCommands.CommandsAreStamped` | crates/webhid-daemon/src/device_mgr.rs:126-146 | Every queued command carries the epoch that its lifetime had when it was stamped. |
| `LifecycleCommands.CommandsAreVouched` | crates/webhid-daemon/src/device_mgr.rs:736-766 | Every command in a queue goes under a cell that was snapshotted for it while valid: the binding of a client on that device with the entry and sink of that moment, or a capability on that device. |
| `LifecycleTheorems.NoLostWakeup` | crates/webhid-daemon/src/device_mgr.rs:947-1030 | An un-woken waiter waits on a reservation that is still stored, or whose remover still owes the wakeup. |
| `LifecycleTheorems.HolderProgresses` | crates/webhid-daemon/src/device_mgr.rs:1035-1181 | A holder is never blocked, each of its own steps brings the wakeup nearer, and the last one wakes every waiter. |
| `LifecycleTheorems.CounterNeverShort` | crates/webhid-daemon/src/device_mgr.rs:639-649 | `non_nm_sessions` is the number of live WS and WT sessions plus the decrements still owed; it covers each owed decrement and is not zero while such a session exists. |
| `LifecycleTheorems.StoppedOnce` | crates/webhid-daemon/src/device_mgr.rs:406-431 | An entry is stopped at most once and never while installed; a detached one has exactly one task that will stop it. |
| `LifecycleReader.DeadReaderTakesOwnIffLive` | crates/webhid-daemon/src/device_mgr.rs:457-518 | A dead reader's cleanup takes down whatever is installed for its device id; that is its own lifetime if and only if that one is still installed. |
| `LifecycleReader.UndisturbedOpen` | crates/webhid-daemon/src/device_mgr.rs:939-1030 | An undisturbed open of an absent device ends with a fresh lifetime, a running reader and the caller's session. |
| `LifecycleReader.StaleReaderTearsDownSuccessor` | crates/webhid-daemon/src/device_mgr.rs:1284-1325 | There is a run in which the reader of a closed lifetime tears down the next lifetime of the same device, with another client's session on it. |
| `LifecycleSuccessors.VictimIsSuccessor` | crates/webhid-daemon/src/device_mgr.rs:1284-1325 | In every run, when a reader takes down a lifetime that is not its own, an earlier step had taken its own lifetime out, and only after that one a later step published the victim. |
| `LifecycleSuccessors.UngatedWasLive` | crates/webhid-daemon/src/device_mgr.rs:1133-1181 | A lifetime whose reader was let go has been installed before. |
| `TlvEncoder.WriteVarint` | crates/webhid/src/collections_tlv.rs:55-66 | The bytes appended are the base-128 digits of the value, lowest first. |
| `TlvEncoder.EncodeFieldFlags` | crates/webhid/src/collections_tlv.rs:136-156 | The loop over the ten flags yields the sum of their weights. |
| `TlvEncoder.EncodeFieldTo` | crates/webhid/src/collections_tlv.rs:186-211 | One field node is appended; nothing before it changes. |
| `TlvEncoder.EncodeCollectionTo` | crates/webhid/src/collections_tlv.rs:88-121 | One collection node is appended, with all its descendants. |
| `TlvEncoder.Serialize` | crates/webhid/src/collections_tlv.rs:491-500 | The byte string of a forest is the nodes of its roots, in order. |
| `TlvWire.ShiftFits` | crates/webhid/src/collections_tlv.rs:68-81 | While reading a 32-bit varint the shift stays below 32 and no bit is cut off. |
| `TlvWire.FlagsBack` | crates/webhid/src/collections_tlv.rs:451-460 | Each mask of the decoder selects the flag that the encoder stored. |
| `TlvDecoder.Decoder.ReadVarint` | crates/webhid/src/collections_tlv.rs:68-81 | Reads back the written value and advances over exactly its bytes. |
| `TlvDecoder.Decoder.DecodeFieldStrings` | crates/webhid/src/collections_tlv.rs:402-414 | Gives the strings back when the value is whole, and never wrong ones when it is cut. |
| `TlvDecoder.Decoder.DecodeField` | crates/webhid/src/collections_tlv.rs:416-463 | Gives the field in normal form, whatever follows; a field whose value is cut is read in full or as the default field. |
| `TlvDecoder.Decoder.DecodeReport` | crates/webhid/src/collections_tlv.rs:261-272 | Gives every field of the report in order and stops at its end. |
| `TlvDecoder.Decoder.DecodeCollection` | crates/webhid/src/collections_tlv.rs:213-259 | Sorts the nodes by tag into the four lists, in order, at any depth, and stops at its end. |
| `TlvDecoder.Decoder.DecodeNode` | crates/webhid/src/collections_tlv.rs:471-489 | Consumes exactly the bytes of one node, whatever follows, also when its tag is unknown. |
| `TlvDecoder.Decoder.Deserialize` | crates/webhid/src/collections_tlv.rs:504-527 | For every forest, decoding its encoding gives its normal form. |
| `TlvPageDecoder.PageDecoder.ReadUsageBlock` | addon/js/utils/descriptor-tlv.js:152-167 | A range, or a list that may be empty, and the cursor after it. |
| `TlvPageDecoder.PageDecoder.ReadFieldNode` | addon/js/utils/descriptor-tlv.js:188-234 | The field as the page sees it: nibble exponent, byte order marks dropped. |
| `TlvPageDecoder.PageDecoder.ReadCollectionNode` | addon/js/utils/descriptor-tlv.js:81-107 | The collection as the page sees it, with every node in its list. |
| `TlvPageDecoder.PageDecoder.DecodeCollectionsTlv` | addon/js/utils/descriptor-tlv.js:236-241 | For every forest, the page's tree of the encoder's bytes. |
| `TlvAgreement.LosslessIffNormal` | crates/webhid/src/collections_tlv.rs:158-211 | The round trip gives the very forest back if and only if every field is normal: exponents in a signed byte, a known unit system, a full range or a non-empty list. |
| `TlvAgreement.ReadingIsIdempotent` | crates/webhid/src/collections_tlv.rs:213-489 | What was read back once is not changed by another round trip. |
| `TlvAgreement.PageAgreesIff` | addon/js/utils/descriptor-tlv.js:201-234 | With an empty usage list read as absent, page and daemon build the same tree if and only if every stored unit exponent is in -8..7 and no string begins with a byte order mark. |
| `TlvAgreement.PageDiffers` | addon/js/utils/descriptor-tlv.js:173-204 | Two one-field forests on which the trees differ: a unit exponent of 8, and a string that begins with a byte order mark. |
| `TlvUnambiguous.SameBytesIffSameTree` | crates/webhid/src/collections_tlv.rs:88-211 | Two forests have the same bytes if and only if they have the same normal form. |
| `TlvRoundTrip.ThroughTheWire` | crates/webhid/src/collections_tlv.rs:491-527 | Writing and reading by both readers, with the two exact conditions above. |
| `WorkerScanner.SkipTrivia` | addon/js/utils/worker-source-parser.js:32-84 | The loop computes the specified end of the trivia, the newline flag and the pending and invalid answers. |
| `WorkerScanner.ReadStringLiteral` | addon/js/utils/worker-source-parser.js:86-145 | The loop with its nested escapes computes the specified end of the literal or the specified failure. |
| `WorkerScanner.ParseWorkerSource` | addon/js/utils/worker-source-parser.js:241-255 | The outer loop ends and answers what the specification of the scan says. |
| `WorkerStreaming.SkipStable` | addon/js/utils/worker-source-parser.js:32-84 | Trivia that ended inside a prefix ends at the same place in every extension. |
| `WorkerStreaming.LiteralStable` | addon/js/utils/worker-source-parser.js:86-145 | A literal that ended or broke a rule inside a prefix does the same in every extension. |
| `WorkerStreaming.StatementStable` | addon/js/utils/worker-source-parser.js:224-239 | A decided statement is decided alike in every extension, but for the two exact families of cut tokens. |
| `WorkerStreaming.ReadyStays` | addon/js/utils/worker-source-parser.js:20-256 | After ready(o) on a prefix, every extension, with either eof, answers ready(o), or invalid exactly when it spoils the cut token the answer rested on; never pending, never another offset. |
| `WorkerStreaming.InvalidStays` | addon/js/utils/worker-source-parser.js:218-220 | After invalid on a prefix, every extension answers the same, except exactly when the source was cut inside a keyword that the extension completes; then it answers ready. |
| `WorkerStreaming.InvalidTakenBack` | addon/js/utils/worker-source-parser.js:218-234 | A source whose prefix is answered invalid and whose whole is answered ready. |
| `WorkerStreaming.EndDecides` | addon/js/utils/worker-source-parser.js:20-256 | With eof the answer is never pending. |
| `WorkerPrologue.ReadyIff` | addon/js/utils/worker-source-parser.js:20-256 | At the end of the source the answer is ready(o) if and only if o ends the directive prologue, by a grammar stated apart from the scanner: white space and comments, string literals that stand as statements, and then the end, or code that is neither a directive nor out of the question. A literal stands as a statement before a semicolon, a closing brace, the end, or a line break that is not followed by something that goes on with the expression. |
| `WorkerPrologue.ReadyIsPrologue` | addon/js/utils/worker-source-parser.js:20-256 | The answer ready(o) on any part of the source has that meaning. |
| `WorkerPrologue.NoDirectiveLeft` | addon/js/utils/worker-source-parser.js:224-255 | No directive begins at the offset. |
| `WorkerPrologue.TriviaIff` | addon/js/utils/worker-source-parser.js:32-84 | Trivia end exactly where no more white space or comment of the grammar begins, and the newline flag tells whether there was a line break. |
| `WorkerPrologue.LiteralIff` | addon/js/utils/worker-source-parser.js:86-145 | A literal is accepted, with its end, exactly when it is one of the grammar, whatever follows. |
| `WorkerPending.PendingIff` | addon/js/utils/worker-source-parser.js:20-256 | A prefix that is answered pending can be ended in two ways that are answered differently, if and only if it does not end in the digits of a code point escape that has too many or too large ones already. |
| `WorkerPending.PendingForGood` | addon/js/utils/worker-source-parser.js:108-122 | A source that is answered pending, and invalid for the same reason however it goes on. |
| `WorkerPrologue.LiteralIsText` | addon/js/utils/worker-source-parser.js:86-145 | What is accepted as a literal is a string literal of that grammar, escapes included. |
| `Blocklist.BlockedDeviceBlocksReports` | crates/webhid-daemon/src/blocklist.rs:58-77 | A device-wide rule blocks every report of the device. |
| `ReportBlocking.Walk` | crates/webhid-daemon/src/report_blocking.rs:84-112 | The recursive walk adds, for each report, all collections above it, in document order. |
| `ReportBlocking.MapFromCollectionTree` | crates/webhid-daemon/src/report_blocking.rs:113-118 | The map is that of all occurrences of the tree. |
| `ReportBlocking.BlockedInputIds` | crates/webhid-daemon/src/report_blocking.rs:312-335 | The loop collects exactly the input ids with a protected association. |
| `ReportBlockingTheorems.MapOfTree` | crates/webhid-daemon/src/report_blocking.rs:84-118 | A key is in the map exactly when a report has it, and its entry is every collection above any such report. |
| `ReportBlockingTheorems.PruneExact` | crates/webhid-daemon/src/report_blocking.rs:195-285 | With any map, the pruned tree shows exactly the reports that are not dropped, in order and below the same collections; no collection is empty; a device with nothing left is hidden. |
| `ReportBlockingTheorems.DroppedIffProtected` | crates/webhid-daemon/src/report_blocking.rs:393-417 | On a tree's own map pruning and `is_report_protected` decide alike. |
| `ReportBlockingTheorems.SurvivesIffUnprotected` | crates/webhid-daemon/src/report_blocking.rs:195-285 | A report occurrence survives if and only if `is_report_protected` is false for its id and direction. |
| `ReportProtection.SurvivesIffUnguarded` | crates/webhid-daemon/src/report_blocking.rs:147-159 | The page sees a report exactly when no collection on any way down the tree to a report of its id and direction is protected, and sees it below the same collections. |
| `ReportProtection.ProtectedIff` | crates/webhid-daemon/src/report_blocking.rs:393-417 | A report that the tree declares is refused exactly when a collection on some way down to it is protected; one that it does not declare, exactly when a top-level collection is always protected in that direction or a device without collections has a protected interface. |
| `ReportProtection.AlwaysProtectedIff` | crates/webhid-daemon/src/blocklist.rs:79-111 | The usages that are protected whatever the rules say, in full. |
| `ReportProtection.BlockedIff` | crates/webhid-daemon/src/blocklist.rs:38-147 | What the rule table blocks, in full. |
| `ReportProtection.DeviceBlockedIff` | crates/webhid-daemon/src/blocklist.rs:58-77 | The one device that the rule table blocks as a whole. |
| `ReportBlockingTheorems.PruneIdempotent` | crates/webhid-daemon/src/report_blocking.rs:195-219 | Pruning the pruned device with a map rebuilt from it changes nothing. |
| `ReportBlockingTheorems.BlockedDeviceIsHidden` | crates/webhid-daemon/src/report_blocking.rs:195-219 | A device that is blocked as a whole shows nothing. |
| `ReportBlockingTheorems.ReaderAgreesIff` | crates/webhid-daemon/src/device_mgr.rs:1301-1309 | With any map, the reader's filter agrees with `is_report_protected` exactly unless the id is declared and unprotected on a protected interface. |
| `ReportBlockingTheorems.ReaderDisagrees` | crates/webhid-daemon/src/device_mgr.rs:1301-1309 | An interface and a map for which the reader drops an input report that `is_report_protected` lets pass. |
| `ReportBlockingTheorems.ReaderAgreesOnOpened` | crates/webhid-daemon/src/device_mgr.rs:1051-1055 | For a device with at least one collection, the only kind that is opened, the two agree for every id, with any map. |
| `ReportBlockingTheorems.ReaderAgreesOnTree` | crates/webhid-daemon/src/report_blocking.rs:378-417 | With a tree's own map the reader drops an input report if and only if `is_report_protected` says so, for every id. |
| `NmFrames.PackedInputReport` | crates/webhid/src/types.rs:391-408 | The loop builds the packed frame of the reports. |
| `NmFrames.HandlePackedInputBatch` | addon/js/content/main/index.js:2113-2132 | The cursor loop dispatches what the specified parser reads, and nothing for another device. |
| `NmFrames.FrameRoundTrip` | addon/js/content/main/index.js:2113-2132 | The page of the device dispatches exactly the packed reports if and only if every payload is at most 65535 bytes; other pages dispatch nothing. |
| `NmWriter.MergeNmInputFrame` | crates/webhid-daemon/src/client.rs:24-39 | Frames are merged exactly when both are input frames of one device within the size limit. |
| `NmWriter.CoalesceQueuedNmInput` | crates/webhid-daemon/src/client.rs:41-61 | The messages taken are one group of at most eight, merged in order; it stops only at the limit, with nothing there, or at a message that does not merge, which is deferred; nothing is lost. |
| `NmWriter.RunSyncWriter` | crates/webhid-daemon/src/client.rs:75-94 | Every queued message ends in exactly one group, in order, and each group is written as one frame; only a cancelled or broken writer leaves any over. For well-formed messages, what was written means what was queued, in order, up to what is left over; all of it when the writer was not stopped. |
| `NmWriter.FramesMergeIff` | crates/webhid-daemon/src/client.rs:24-39 | Frames of reports merge exactly when they are of one device and all their reports together make a frame within the limit. |
| `NmWriter.GroupBounds` | crates/webhid-daemon/src/client.rs:24-39 | A merged frame holds one device's reports and at most 512 KiB. |
| `NmWriter.GroupingKeepsMeaning` | crates/webhid-daemon/src/client.rs:41-61 | However the queue was grouped, the frames written give the same control messages and reports in the same order. |
| `BatchFrames.WriteBatchFrame` | crates/webhid-daemon/src/batching.rs:27-39 | The loop builds the batch frame of the reports. |
| `BatchFrames.ParseInputReports` | addon/js/utils/wire-format.js:30-48 | The loop reads what the specified parser reads. |
| `BatchFrames.BatchRoundTrip` | addon/js/utils/wire-format.js:30-48 | After its type byte a batch frame is parsed into exactly its reports if and only if every payload is at most 65534 bytes. |
| `Sender.BatchSender.FlushBatch` | crates/webhid-daemon/src/batching.rs:77-104 | A flush sends the whole batch as one frame and empties it; only when the transport says no does it send nothing and keep it. |
| `Sender.BatchSender.HandleEvent` | crates/webhid-daemon/src/batching.rs:106-145 | A report of the device joins the batch; a lag flushes the whole batch; a closed channel changes nothing; only that and a transport that says no end the sender. |
| `Sender.BatchSender.DrainAvailable` | crates/webhid-daemon/src/batching.rs:147-175 | Takes all that is available, up to a closed channel; only a transport that says no ends it before, without losing a report. |
| `Sender.BatchSender.CoalesceWindow` | crates/webhid-daemon/src/batching.rs:181-214 | Folds further reports in until the timer; it ends before only when the run is cut, the sender is told to stop or the transport says no. |
| `Sender.BatchSender.RunAdaptive` | crates/webhid-daemon/src/batching.rs:258-327 | Waits for a new event only with an empty batch, and for a window only with two or more reports; reports handed over before a timer are sent. |
| `Sender.BatchSender.RunSender` | crates/webhid-daemon/src/batching.rs:217-327 | Wherever a run is cut, sent frames and pending batch hold, in order and once, all the device's reports that the channel handed over. Unless the transport says no, what was handed over before the last timer is sent, and in adaptive mode, unless stopped, everything; and a valid sender goes on until it is cut, told to stop or refused. Where the payloads fit, what the page reads from the frames and what is pending are these reports in order; unstopped and with nothing pending, the page reads them all. |
| `Sender.PageReadsAll` | addon/js/utils/wire-format.js:30-48 | The page reads from the sent frames exactly the reports put into them, however they were batched. |
| `WtFraming.FrameReader.OnChunk` | addon/js/utils/webtransport.js:187-202 | One chunk delivers the frames it completes and keeps the rest. |
| `WtFraming.ReadAll` | addon/js/utils/webtransport.js:187-202 | For every split into chunks, the frames delivered are the complete frames of the whole stream and the buffer is what follows. |
| `WtFraming.ChunksDoNotMatter` | addon/js/utils/webtransport.js:187-202 | The chunk-by-chunk reading equals the reading of the whole. |
| `WtFraming.WireRoundTrip` | addon/js/utils/webtransport.js:330-343 | Written frames are read back unchanged with nothing left over, if and only if every length fits its prefix. |
| `WtFraming.CutStream` | crates/webhid-daemon/src/webtransport.rs:230-243 | A stream that broke off anywhere delivers a prefix of the frames. |
| `WtFraming.WriterTask` | crates/webhid-daemon/src/webtransport.rs:230-243 | The task writes all frames, or breaks inside them. |
| `WtClient.StepKeeps` | addon/js/utils/webtransport.js:91-172 | Every event, with whatever its callbacks do, keeps the client invariant and only ever gives notice of the connection it ends. |
| `WtClient.EveryRun` | addon/js/utils/webtransport.js:216-314 | In every run: a connection is there exactly while its end is not handled; open, writer and timers are its own; a pending reconnect has no connection, a message and the current generation; the delay is in 500..5000; each generation has at most one notice. |
| `WtClient.GoneForGood` | addon/js/utils/webtransport.js:91-93 | A superseded or dropped connection is never current again and no later notice is about it. |
| `WtClient.StaleAnswerIgnored` | addon/js/utils/webtransport.js:131-132 | A late answer of a connection that is not current changes nothing. |
| `WtClient.PendingTimerConnects` | addon/js/utils/webtransport.js:161-172 | A pending reconnect timer starts a new connection when it fires. |
| `WtClient.FailedConstructorIsFinal` | addon/js/utils/webtransport.js:270-277 | A reconnect timer that fires is gone, whatever the callbacks do, and there is a connection after it exactly when the constructor succeeded, or when the calls made in the onClosed of the failing one end with a connect that succeeds in the same sense. |
| `WtClient.StepTells` | addon/js/utils/webtransport.js:103-155 | In every step the page is told of the end of a connection as it ended: a failed authentication, without a reconnect, when the server refuses it or closes it before it was ready or while its first stream is awaited; otherwise a close with `willReconnect`; and beside that only of connections that could not be made. |
| `WtClient.BacksOff` | addon/js/utils/webtransport.js:161-172 | The delay doubles, up to 5000, exactly with every reconnect that is set, and is 500 again when a connection is ready. |
| `WtClient.AuthWindow` | addon/js/utils/webtransport.js:281-292 | A connection that ends counts as authenticated once its stream is attached or its timer has fired, and not before. |
| `WtClient.ConnectStarts` | addon/js/utils/webtransport.js:236-279 | A connect makes a new connection at once and forgets the one before without telling the page. |
| `WtClient.DisconnectIsQuiet` | addon/js/utils/webtransport.js:349-389 | After a disconnect nothing that answers late or fires changes anything or is told, until the page connects again. |
| `WtClient.FramesHandOn` | addon/js/utils/webtransport.js:187-202 | What the page calls from the callback for a frame does what it would do outside of it; frames of a connection that is not current are not handed on. |
| `WtClient.ReadEndReleases` | addon/js/utils/webtransport.js:203-208 | A stream that ends is no longer read, and its connection goes on. |
| `WtClient.ReconnectGivesUp` | addon/js/utils/webtransport.js:161-172 | A run from the start in which a reconnect is announced and pending, its constructor throws, and neither a connection nor a timer is left. |
| `WtClient.WillReconnect` | addon/js/utils/webtransport.js:103-155 | After `willReconnect: true` a timer is pending exactly when the callback made no call of its own and did not throw; a connection is there already exactly when its calls end with one. |
| `WtTransport.Transport.DoConnectNow` | addon/js/utils/webtransport.js:236-279 | The fields change as the state machine says, the callback of a failing constructor included. |
| `WtTransport.Transport.Fail` | addon/js/utils/webtransport.js:103-123 | The fields change as the state machine says. |
| `WtTransport.Transport.ReadySettled` | addon/js/utils/webtransport.js:281-292 | The fields change as the state machine says. |
| `WtTransport.Transport.ReadyRefused` | addon/js/utils/webtransport.js:293-306 | The fields change as the state machine says. |
| `WtTransport.Transport.AuthTimeout` | addon/js/utils/webtransport.js:286-290 | The fields change as the state machine says; a timer of another connection changes nothing. |
| `WtTransport.Transport.ReconnectTimeout` | addon/js/utils/webtransport.js:164-169 | The fields change as the state machine says; only the pending timer has an effect. |
| `WtTransport.Transport.ClosedSettled` | addon/js/utils/webtransport.js:131-155 | The fields change as the state machine says. |
| `WtTransport.Transport.StreamSettled` | addon/js/utils/webtransport.js:216-233 | The fields change as the state machine says, a throwing onReady included. |
| `WtTransport.Transport.Disconnect` | addon/js/utils/webtransport.js:349-389 | The fields change as the state machine says. |
| `Fields.RangeIsExactIff` | crates/webhid-daemon/src/descriptor/fields.rs:131-148 | The detected range gives the usages back if and only if first id plus run length is at most 65536; otherwise it names fewer. |
| `Fields.CollectRun` | crates/webhid-daemon/src/descriptor/fields.rs:226-244 | The inner loop folds exactly the fields that join. |
| `Fields.ConvertFieldsAggregate` | crates/webhid-daemon/src/descriptor/fields.rs:221-271 | The loops build one output field per run. |
| `FieldsTheorems.StartsAreBreaks` | crates/webhid-daemon/src/descriptor/fields.rs:231-244 | Runs are maximal: an output field starts exactly where a field does not continue the one before. |
| `FieldsTheorems.ExpandsBackIff` | crates/webhid-daemon/src/descriptor/fields.rs:90-148 | Expanding the output gives usage and width of every variable field in order if and only if every run has a width of at least one bit and ids that stay inside sixteen bits. |
| `FieldsTheorems.RunBitsIff` | crates/webhid-daemon/src/descriptor/fields.rs:179-219 | An output field has the bits of its run if and only if the fields are at least a bit wide and an array's bits divide by its count. |
| `FieldsTheorems.BitsConserved` | crates/webhid-daemon/src/descriptor/fields.rs:221-271 | Then the total number of bits is unchanged. |
| `FieldsAttributes.AttributesKept` | crates/webhid-daemon/src/descriptor/fields.rs:43-129 | Every parsed field finds in its output field all it said: logical and physical bounds, unit exponent, unit system and the six exponents of the unit, flags and strings. |
| `FieldsAttributes.ArrayUsages` | crates/webhid-daemon/src/descriptor/fields.rs:150-177 | An array field names its declared range when the ends of that are in order, and otherwise its usages, and has as many elements as the array. |
| `FieldsTheorems.RangeRunsOver` | crates/webhid-daemon/src/descriptor/fields.rs:136-144 | Two usages with id 0xFFFF are taken for a range that names no usage. |
| `ItemWalk.Scan` | crates/webhid-daemon/src/descriptor/local_strings.rs:33-148 | The loop over items, with its stack of globals, computes the specified main items or failure. |
| `ItemStream.WalkOfBytes` | crates/webhid-daemon/src/descriptor/local_strings.rs:33-148 | Walking the bytes of any list of short and long items gives what the items mean one after another, or fails as they do. |
| `ItemStream.MainIsReported` | crates/webhid-daemon/src/descriptor/local_strings.rs:69-136 | Without pushes and pops, an Input, Output or Feature item of at least one bit is reported with the report id given last, as many fields as the count given last if it is a variable one, and the string indices given since the last main item; nothing else is reported. |
| `ItemStream.LocalsSinceMain` | crates/webhid-daemon/src/descriptor/local_strings.rs:69-136 | The string indices, minimum and maximum that a main item gets are those given since the last main item. |
| `ItemStream.IndicesTell` | crates/webhid-daemon/src/descriptor/local_strings.rs:94-113 | A main item gets the indices given one by one and then all from the minimum to the maximum, in order; a range of more than 256 is refused. |
| `ItemStream.FailsIff` | crates/webhid-daemon/src/descriptor/local_strings.rs:76-113 | The walk fails exactly at a report item whose bits do not fit a machine word, or, of at least one bit, with a range of more than 256 string indices. |
| `ItemStream.PopRestores` | crates/webhid-daemon/src/descriptor/local_strings.rs:69-136 | A pop brings back the globals of the push it belongs to. |
| `ItemStream.NumberedIff` | crates/webhid-daemon/src/hid.rs:656-681 | A device uses numbered reports if and only if one of the items is a Report ID. |
| `ItemWalk.UsesNumberedReports` | crates/webhid-daemon/src/hid.rs:656-681 | The loop finds a Report ID item exactly when the specified walk does. |
| `ItemWalk.SameMask` | crates/webhid-daemon/src/hid.rs:668-670 | Both walks recognise the same header bytes. |
| `ItemWalk.AttributedIdIsSet` | crates/webhid-daemon/src/descriptor/local_strings.rs:69-136 | Every report id attributed to a main item was set by a whole Report ID item at an offset both walks step through. |
| `ItemWalk.AttributedIsNumbered` | crates/webhid-daemon/src/hid.rs:656-681 | If a report id is attributed to any main item, the device uses numbered reports. |

## Left out

- Time: windows, delays, rate counters and intervals are arbitrary; only the order of events is modelled.
- Poisoned locks, thread joins, dropping an `open` future while it waits, allocation failure.
- hidapi, udev, IOKit, Win32, tokio, and the WebSocket and WebTransport libraries: their answers are arbitrary.
- The worker loop, the queueing of commands and the opener's awaits are steps of a state machine on values, not methods of a class: queue handles and atomics are identified by number, and aliasing of the shared cells is by index.
- `close_all_for_client` is a sequence of closes and is not modelled on its own.
- SHA-256, random tokens and UTF-8 validation: the hash is injective, tokens are fresh, strings are their bytes.
- base64 around the TLV bytes is a bijection and is not modelled.
- TLV bytes that no encoder wrote: the decoders index without checks, so only encoder output is in scope; fields cut short are covered for the daemon's decoder.
- The association map that is built from a parsed descriptor: pruning and the reader's filter are proved for an arbitrary map, agreement with the send check for the map of the collection tree.
- Size and numbering checks before a send (`report_write_valid`): a few comparisons.
- `TransportCapability`'s revocation watch channel and the cancel channels: they only end transports earlier.
- NmWriter.RunSyncWriter: the asynchronous writer runs the same coalescing and is not modelled a second time.
- Sender.BatchSender.RunSender: a stop by the session, by the transport's revocation and by its owner are one.
- WorkerScanner.ParseWorkerSource: which of the reasons an invalid answer names is tied to the specification of the scan only.
- The order in which a teardown settles the counter and stops the entry is modelled; nothing is claimed for it.
- LifecycleTheorems.HolderProgresses: says that a holder can always take its next step, not that a scheduler lets it.
- WtTransport.Transport.Send: bytes of a send are those of the framing model; the state machine sees only that a write may fail.
- Logging, dump tools, permission storage, pickers and the rest of the add-on's user interface.
