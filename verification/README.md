# SerialClone in Dafny

SerialClone is a Windows serial-port driver pair plus an installer:

- **The filter.** A filter device sits on a serial port's stack. It runs the PnP state machine (`FilterPnpDispatch`) and forwards its other requests, device control included, to the port below.
- **The clone.** The filter reports a "clone" bus child. The clone answers PnP with synthesized identity strings and points capability queries at the filter's cache (`ClonePnpDispatch`). The serial IOCTLs are answered by `CloneSerialIoControl`, reached through the `CloneDeviceIoControlDispatch` of CloneIOctl.c:33-52.
- **The installer.** It finds devices by matching hardware or instance IDs against `@`/quote/`*` patterns, over multi-sz string lists.

This project models those four pieces as pure functions over immutable records and proves what each promises.

| module | file | models |
|---|---|---|
| `Common` | common.dfy | NTSTATUS values used, `NT_SUCCESS`, 32-bit integer subset types, `Option` |
| `LineControl` | line_control.dfy | 16550 line-control register layout; encode/decode of word length, parity and stop bits |
| `SerialTypes` | serial_types.dfy | the port's device-extension fields, one constructor per serial IOCTL with its typed input, the outcome record |
| `SerialIoctl` | serial_ioctl.dfy | `CloneSerialIoControl`: error check, buffer-length checks, the I/O lock, every IOCTL case and the default. `Dispatch` uses the corrected SET_LINE_CONTROL of the finding below; `DispatchAsWritten` keeps that case as written |
| `SerialProperties` | serial_props.dfy | what each IOCTL promises, round trips, the escape-character invariant |
| `RemoveLock` | remove_lock.dfy | the remove lock as an outstanding count plus a removing flag |
| `Irp` | irp.dfy | PnP states, minor functions, the trace of steps a dispatch routine takes, the pass-through routines |
| `FilterPnp` | filter_pnp.dfy | `FilterPnpDispatch`, `FilterPowerDispatch`, the read path |
| `ClonePnp` | clone_pnp.dfy | `ClonePnpDispatch`, `ClonePowerDispatch`, `CloneSystemControlDispatch` |
| `MultiSz` | multi_sz.dfy | the multi-sz format and `GetMultiSzIndexArray` |
| `Glob` | glob.dfy | case-insensitive `*` glob, the reference meaning of a wildcard ID |
| `IdMatch` | id_match.dfy | `GetIdType`, `WildCardMatch`, `WildCompareHwIds` |

**Modelling conventions:**

- **Unseen routines become inputs.** These routines are defined outside the files modelled: the device error check, `test1CheckIoLock`, the queueing routine, `test1SerialStartImmediate`, the MCR read, the modem-status update, `SucceedRequest`, `RepeatRequest`, and the lower driver's answers. Each is a field of an environment record (`SerialTypes.Env`, `FilterPnp.Stack`, `ClonePnp.CloneEnv`) or, for the clone's power and system-control routines, the `succeed` parameter, so every property holds whatever they return. For the two clone helpers this includes the status block they leave on the request (`succeedIo`, `repeatIo`). The failure routine `FailRequest`, also defined outside, is a step in the trace. `ISCLONE` comes from a header that is not part of this model, so the clone's role tag is read as two facts: "equals ISCLONE" and "has the ISCLONE bit". Hardware actions (an LCR or MCR write, XON/XOFF, break, queueing) are reported as an `Effect` instead of performed.
- **PnP steps are traces.** The PnP routines return a trace of `Irp.Event`s: state writes, forwards, completions, lock releases, the removal wait, detach and delete. Ordering properties are stated over that trace.
- **Strings and integers.** Strings are `seq<char>` without their terminating NUL; a multi-sz buffer is a `seq<char>` with its NULs. Register bytes are `bv8`, ULONG flag words are `bv32`, and ULONG counters are `u32`, with wrap-around written out.

Four behaviours of the code that are easy to miss:

- **Capability cache location.** The capability cache is written in the filter's own extension, and only after a version check (Filter.c:307-330). The clone reads it there (clone.c:149-152).
- **Clone QUERY_ID for an unsupported ID type.** The IRP is completed with NOT_SUPPORTED, but the routine returns SUCCESS (clone.c:118-122).
- **Clone QUERY_RESOURCE_REQUIREMENTS.** The routine returns SUCCESS but completes the IRP with whatever status it already carried (clone.c:157-164).
- **Clone role-tag check.** A clone whose role tag is not ISCLONE is handed to the failure routine with NO_SUCH_DEVICE, and the PnP or power routine then goes on to answer the request anyway (clone.c:49-53, 225-229).

Two sets of constants come from headers that are not part of this model:

- **Line-control register bits.** These follow the PC16550D layout: word length in bits 0-1, a stop flag at 0x04 shared by 1.5 and 2 stop bits, parity in bits 3-5, break at 0x40.
- **Transmit/receive stop-reason bits.** These follow the Windows serial sample driver.

## Model

| member | source | states |
|---|---|---|
| LineControl.DecodeEncode | driver/CloneIOctl.c:339-391 | decoding the register that SET_LINE_CONTROL builds from valid settings returns the settings, with the shared stop flag read as 1.5 for 5-bit words and as 2 otherwise, whatever the break bit |
| LineControl.ReadBackExact | driver/CloneIOctl.c:339-391 | the read-back equals the settings written exactly when stop bits are 1, or 1.5 with 5-bit words, or 2 with 6-8-bit words |
| LineControl.EncodeFields | driver/CloneIOctl.c:235-305 | the encoded bits use only the word-length, stop and parity fields and never the break bit |
| LineControl.MaskWidth | driver/CloneIOctl.c:235-253 | the data mask for word length n is 2^n - 1 (0x1f, 0x3f, 0x7f, 0xff) |
| LineControl.Decode | driver/CloneIOctl.c:339-391 | any register value decodes to a word length 5-8, a parity of at most SPACE and a stop-bit code of at most 2 |
| LineControl.Encode | driver/CloneIOctl.c:235-305 | the register bits built from valid settings hold the word length minus 5 in the word-length field, set the stop flag exactly when more than one stop bit is asked for, and never set break |
| SerialProperties.SetLineControlStores | driver/CloneIOctl.c:209-317 | valid settings are written to the register with the old break bit kept, the data mask is set and nothing else in the port changes |
| SerialProperties.GetLineControlReads | driver/CloneIOctl.c:321-397 | GET_LINE_CONTROL reports the decoded register and changes nothing |
| SerialProperties.LineControlRoundTrip | driver/CloneIOctl.c:235-391 | SET then GET returns the settings up to the shared stop flag, keeps the break bit, and sets the mask to 2^n - 1; the read-back is exact iff the stop bits are representable |
| SerialProperties.LineControlInvalid | driver/CloneIOctl.c:235-305 | in the corrected handler, an unrecognised word length, parity or stop-bit value fails with INVALID_PARAMETER and changes nothing |
| SerialProperties.AsWrittenClobbersOnInvalid | driver/CloneIOctl.c:235-313 | as written, an invalid word length still completes with INVALID_PARAMETER but writes the register and sets the data mask to 0xff, changing the port |
| SerialProperties.AsWrittenCounterexample | driver/CloneIOctl.c:235-313 | word length 9 on a 5-bit port, with stale locals 0x03/0/0, leaves the register 0x03 and the mask 0xff after an INVALID_PARAMETER |
| SerialIoctl.AsWrittenAgreesOnValid | driver/CloneIOctl.c:235-313 | the as-written and corrected handlers report the same status and completion on all settings, and agree entirely on valid ones whatever the stale locals |
| SerialProperties.SetTimeoutsStores | driver/CloneIOctl.c:400-432 | SET_TIMEOUTS fails iff all three read fields are MAXULONG, leaving the timeouts; otherwise all five fields are stored |
| SerialProperties.GetTimeoutsReads | driver/CloneIOctl.c:435-451 | GET_TIMEOUTS returns the stored timeouts and changes nothing |
| SerialProperties.TimeoutsRoundTrip | driver/CloneIOctl.c:414-446 | accepted timeouts are returned exactly by a following GET_TIMEOUTS |
| SerialProperties.CharsGuard | driver/CloneIOctl.c:471-482 | SET_CHARS fails iff a non-zero escape character equals the new XON or XOFF character; otherwise the characters are stored |
| SerialProperties.GetCharsReads | driver/CloneIOctl.c:492-508 | GET_CHARS returns the stored characters |
| SerialProperties.CharsRoundTrip | driver/CloneIOctl.c:471-508 | accepted characters are returned exactly by GET_CHARS |
| SerialProperties.LsrmstInsertGuard | driver/CloneIOctl.c:1306-1319 | LSRMST_INSERT fails iff a non-zero escape equals XON or XOFF or the error-character flag is set; otherwise the escape is stored |
| SerialProperties.HandFlowValidation | driver/CloneIOctl.c:950-998 | SET_HANDFLOW fails before any change on invalid bits or limits; a lock refusal returns the lock status; with an escape set, the error-character flag is refused; otherwise the struct is stored |
| SerialProperties.HandFlowLimits | driver/CloneIOctl.c:950-1000 | with legal flag bits, SET_HANDFLOW fails with INVALID_PARAMETER and no change when XonLimit or XoffLimit lies outside 0..QueueSize; inside it (a limit equal to QueueSize included) the struct is stored, barring the escape/error-character refusal |
| SerialProperties.GetHandFlowReads | driver/CloneIOctl.c:916-932 | GET_HANDFLOW returns the stored struct |
| SerialProperties.HandFlowRoundTrip | driver/CloneIOctl.c:916-1005 | an accepted handflow struct is returned exactly by GET_HANDFLOW |
| SerialProperties.DispatchKeepsInvariants | driver/CloneIOctl.c:68-1382 | with SET_LINE_CONTROL corrected, every request keeps "a non-zero escape differs from XON and XOFF and the error-character flag is clear", and a request completed with an error status changes neither the port nor the hardware |
| SerialProperties.DispatchAsWrittenKeeps | driver/CloneIOctl.c:68-1382 | as written, every request keeps the escape-character rule, and every request except a SET_LINE_CONTROL with unrecognised settings leaves the port and the hardware alone when it completes with an error |
| SerialProperties.DtrGuard | driver/CloneIOctl.c:511-568 | SET/CLR_DTR is refused iff the DTR mode is handshake; otherwise the line is raised or lowered |
| SerialProperties.RtsGuard | driver/CloneIOctl.c:594-653 | SET/CLR_RTS is refused iff the RTS mode is handshake or transmit-toggle; otherwise the line is raised or lowered |
| SerialProperties.WaitMaskValidation | driver/CloneIOctl.c:802-835 | SET_WAIT_MASK fails on bits outside the 13 legal events, otherwise the request is queued on the mask queue |
| SerialProperties.PurgeValidation | driver/CloneIOctl.c:891-913 | PURGE fails on a zero mask or bits outside the four purge flags, otherwise it is queued on the purge queue |
| SerialProperties.XoffCounterValidation | driver/CloneIOctl.c:1244-1268 | XOFF_COUNTER fails when Counter <= 0, otherwise it is queued as a write |
| SerialProperties.QueueSizeValidation | driver/CloneIOctl.c:744-782 | SET_QUEUE_SIZE no larger than the current size succeeds with no change; a larger one fails without pool memory and is queued otherwise |
| SerialProperties.UnknownCode | driver/CloneIOctl.c:1373-1375 | an unknown control code fails with INVALID_PARAMETER and changes nothing |
| SerialProperties.ImmediateCharRule | driver/CloneIOctl.c:860-885 | IMMEDIATE_CHAR is refused while one is outstanding; otherwise it is recorded, started, and the pending-write count grows by exactly one modulo 2^32 |
| SerialProperties.ImmediateCharSingle | driver/CloneIOctl.c:870-882 | a second IMMEDIATE_CHAR after an accepted one is refused |
| SerialProperties.HoldReasonsMapping | driver/CloneIOctl.c:1101-1139 | each hold-reason bit is set iff its transmit or receive stop-reason bit is, and no other bit is set |
| SerialProperties.CommStatusReads | driver/CloneIOctl.c:1072-1145 | GET_COMMSTATUS reports the error word, the hold reasons, the input count and the immediate flag, and clears the error word |
| SerialProperties.CommStatusReadAndClear | driver/CloneIOctl.c:1088-1139 | a second GET_COMMSTATUS reports no errors |
| SerialProperties.ClearStatsZeroes | driver/CloneIOctl.c:1363-1372 | CLEAR_STATS zeroes the performance counters and changes nothing else |
| SerialProperties.GetStatsReads | driver/CloneIOctl.c:1344-1360 | GET_STATS returns the counters |
| SerialProperties.StatsCleared | driver/CloneIOctl.c:1344-1372 | GET_STATS after CLEAR_STATS returns all zeroes |
| SerialProperties.SetBaudStores | driver/CloneIOctl.c:92-113 | SET_BAUD_RATE stores the rate and nothing else |
| SerialProperties.GetBaudReads | driver/CloneIOctl.c:116-143 | GET_BAUD_RATE returns the stored rate |
| SerialProperties.BaudRoundTrip | driver/CloneIOctl.c:92-143 | GET_BAUD_RATE after SET_BAUD_RATE returns the rate set |
| SerialProperties.DtrRtsBits | driver/CloneIOctl.c:1040-1069 | GET_DTRRTS reports exactly the DTR and RTS bits of the modem control register |
| SerialProperties.ModemControlWrite | driver/CloneIOctl.c:175-199 | SET_MODEM_CONTROL writes the value to the MCR, unchecked, and leaves the port record |
| SerialProperties.ModemReads | driver/CloneIOctl.c:146-172 | GET_MODEM_CONTROL returns the MCR and GET_MODEMSTATUS the modem status, neither changing the port |
| SerialProperties.SignalActions | driver/CloneIOctl.c:658-739 | SET_XOFF, SET_XON, SET_BREAK_ON and SET_BREAK_OFF each perform their one action and change no field |
| SerialProperties.FifoAndConfigSize | driver/CloneIOctl.c:203-205 | SET_FIFO_CONTROL, taking no I/O lock, completes with the error check's status, no change and no effect; CONFIG_SIZE (1326-1339) reports 0 in a ULONG |
| SerialProperties.ResetDoesNothing | driver/CloneIOctl.c:571-591 | RESET_DEVICE takes the I/O lock and completes with its status, changing nothing and touching no hardware |
| SerialProperties.WaitMaskRead | driver/CloneIOctl.c:785-798 | GET_WAIT_MASK returns the stored mask |
| SerialProperties.WaitOnMaskQueued | driver/CloneIOctl.c:843-855 | WAIT_ON_MASK is queued on the mask queue and not completed |
| SerialProperties.PropertiesReport | driver/CloneIOctl.c:1148-1235 | GET_PROPERTIES reports a version-2 record of its own size, no transmit queue, and the port's queue size as current receive queue |
| SerialProperties.ShortBufferRefused | driver/CloneIOctl.c:92-1372 | any request whose input or output buffer is shorter than its structure fails with BUFFER_TOO_SMALL and changes nothing |
| SerialProperties.LockRefusal | driver/CloneIOctl.c:92-1005 | a request that takes the I/O lock returns the lock's status unchanged when the lock is refused |
| SerialProperties.DeviceErrorReturned | driver/CloneIOctl.c:83-87 | when the device error check fails, the request is returned uncompleted with that status and nothing changes |
| SerialIoctl.Dispatch | driver/CloneIOctl.c:68-1382 | CloneSerialIoControl: a failed device check (83-87) returns its status uncompleted; past it, a buffer shorter than the request's structure completes with BUFFER_TOO_SMALL. Neither touches the port or the hardware; only then does the code's handler run |
| SerialIoctl.DispatchAsWritten | driver/CloneIOctl.c:68-1382 | CloneSerialIoControl as written: the same status and completion as Dispatch on every request, and the same outcome except on a SET_LINE_CONTROL with unrecognised settings |
| RemoveLock.Acquire | driver/Filter.c:62-70 | taking the lock fails iff removal has begun; otherwise one more request is in flight |
| RemoveLock.Release | driver/Filter.c:357-363 | giving the lock back lowers the in-flight count and leaves the removal flag as it was |
| RemoveLock.WaitForSafeRemove | driver/Filter.c:266-272 | after the removal wait, removal has begun and nothing is in flight |
| RemoveLock.AcquireRelease | driver/Filter.c:357-363 | acquiring then releasing the lock of a device not being removed gives the lock back as it was |
| Irp.PassThrough | driver/Filter.c:454-488 | the pass-through routines forward iff removal has not begun, and then return the lower answer; the lock is left as found on both paths |
| Irp.PassThroughRule | driver/Filter.c:454-488 | close, cleanup, write, device-control (Filter.c:699-732 and the forwarding routine of clone.c:446-480) and internal device-control of both devices, and filter system control, refuse with DELETE_PENDING exactly once removal has begun; otherwise they forward, with the lock balanced |
| FilterPnp.FilterPnpDispatch | driver/Filter.c:37-364 | only REMOVE starts removal; no request leaves more than the one lock reference it took; every change of PnP state is a state write in the trace |
| FilterPnp.FilterPowerDispatch | driver/Filter.c:366-393 | the next power request is started first and the lock is left as found; the request goes to the power manager iff removal has not begun |
| FilterPnp.FilterReadDispatch | driver/Filter.c:592-627 | the read is sent down iff removal has not begun, and then one more lock reference is held for the completion routine |
| FilterPnp.ReadComplete | driver/Filter.c:554-591 | the completion routine gives back exactly one lock reference and lets the read finish with SUCCESS |
| FilterPnp.PnpRefusal | driver/Filter.c:62-70 | a PnP request is refused with DELETE_PENDING and no state change exactly when the lock cannot be taken |
| FilterPnp.StartRule | driver/Filter.c:74-103 | START forwards synchronously first; the state becomes Started iff the lower start succeeds (or it already was), removable media is OR-ed in on success, and a failure changes nothing |
| FilterPnp.QuerySavesState | driver/Filter.c:105-123 | QUERY_STOP and QUERY_REMOVE save the state as previous and set StopPending or RemovePending, then forward |
| FilterPnp.CancelRule | driver/Filter.c:125-160 | a cancel in the matching pending state restores the previous state when the lower cancel succeeds; a spurious cancel is forwarded with no change |
| FilterPnp.QueryCancelRestores | driver/Filter.c:105-237 | a query followed by a successful cancel returns the device to its starting state and lock |
| FilterPnp.TerminalStates | driver/Filter.c:162-286 | STOP, SURPRISE_REMOVAL and REMOVE set Stopped, SurpriseRemoved and Removed as their first step |
| FilterPnp.RemoveOrder | driver/Filter.c:261-286 | REMOVE sets the state, releases the lock, waits for the drain, forwards, detaches and deletes, in that order |
| FilterPnp.RemovedStaysRemoved | driver/Filter.c:261-286 | after REMOVE every further PnP request is refused with DELETE_PENDING |
| FilterPnp.CapsCaching | driver/Filter.c:307-330 | QUERY_CAPABILITIES with version below 1 passes through uncached; otherwise a successful synchronous forward caches the lower capabilities |
| FilterPnp.LockAccounting | driver/Filter.c:37-364 | every minor gives the lock back except QUERY_ID and QUERY_CAPABILITIES, which keep one reference, and REMOVE, which drains it |
| FilterPnp.UsagePagable | driver/Filter.c:288-300 | after a usage notification, the device is power-pagable iff the lower device is and, when a device is attached above, it was already pagable or the attached one is |
| FilterPnp.PowerRule | driver/Filter.c:366-393 | the next power request is started first on both paths; the request is refused iff removal has begun, otherwise the lower answer is returned |
| FilterPnp.ReadBalanced | driver/Filter.c:554-627 | a read takes a lock reference that its completion routine gives back |
| ClonePnp.ClonePnpDispatch | driver/clone.c:33-212 | every PnP request is answered here and none is sent down; the routine keeps at most the one lock reference it took and never starts removal |
| ClonePnp.ClonePowerDispatch | driver/clone.c:214-246 | power requests are not passed down, and the lock is left as found |
| ClonePnp.CloneSystemControlDispatch | driver/clone.c:249-276 | system-control requests are not passed down, and the lock is left as found |
| ClonePnp.CloneRefusal | driver/clone.c:55-63 | after the role check, a PnP request is refused with DELETE_PENDING and the lock untouched exactly when removal has begun |
| ClonePnp.WrongTagFailsThenCarriesOn | driver/clone.c:49-53 | exactly a device whose tag is not ISCLONE is handed to the failure routine with NO_SUCH_DEVICE; the request is then answered as for a correctly tagged device, with the same status, status block, lock and later steps |
| ClonePnp.LifecycleSucceeds | driver/clone.c:66-88 | all eight lifecycle minors are handed to the success helper, whose return value and status block are the routine's, with nothing sent down, completed or changed here after the role check |
| ClonePnp.QueryIdTable | driver/clone.c:99-123 | instance ID "0000", device ID driver name + "\\" + hardware ID, hardware ID "*GCH4133" (or "*GCH4134" when the tag lacks the ISCLONE bit); other types complete NOT_SUPPORTED with no information, the only step after the role check |
| ClonePnp.IdBufferOf | driver/clone.c:124-137 | the ID buffer is two characters longer than the ID (nchars + 2): room for the terminator and the extra NUL |
| ClonePnp.IdBufferIsMultiSz | driver/clone.c:124-141 | the returned ID buffer (string plus two NULs) parses as the one-element multi-sz holding the ID |
| ClonePnp.AnsweredIdsAreMultiSz | driver/clone.c:93-143 | every ID the clone answers is a well-formed one-element multi-sz |
| ClonePnp.QueryIdNoMemory | driver/clone.c:124-141 | without pool memory an answerable QUERY_ID fails with INSUFFICIENT_RESOURCES and no information |
| ClonePnp.CapsFromFilter | driver/clone.c:144-155 | QUERY_CAPABILITIES succeeds, leaves the request's capability pointer on the filter's cached record, and sends nothing down |
| ClonePnp.CachedCapsReachClone | driver/clone.c:149-152 | the record the clone's capability pointer is left on is the one the filter cached from its last successful query |
| ClonePnp.TargetRelation | driver/clone.c:166-196 | TargetDeviceRelation answers a new list holding only the clone; without memory it fails; other types leave status and information as they were |
| ClonePnp.OtherMinors | driver/clone.c:157-200 | QUERY_RESOURCE_REQUIREMENTS returns SUCCESS; any other unhandled minor gives NOT_SUPPORTED with the information unchanged |
| ClonePnp.ClonePowerRule | driver/clone.c:214-246 | the next power request is started right after the role check on both paths; refused with DELETE_PENDING iff removal has begun, otherwise the lock is given back and the success helper's return value is returned |
| ClonePnp.SystemControlRule | driver/clone.c:249-276 | system control is never sent down: refused with DELETE_PENDING iff removal has begun, otherwise the lock is given back and the success helper's return value is returned |
| IdMatch.GetIdType | SCInstall/SCDevEnum.cpp:101-129 | a leading '@' marks an instance ID and is skipped; then a leading quote is skipped and disables wildcards, otherwise the wildcard is the first '*' if any |
| IdMatch.StrChr | SCInstall/SCDevEnum.cpp:114-127 | the result is the first position of the character, or none when it is absent |
| IdMatch.WildCardMatch | SCInstall/SCDevEnum.cpp:336-445 | the item matches iff it equals the string ignoring case (no wildcard) or matches the case-insensitive glob in which '*' stands for any substring |
| IdMatch.PrefixThenAnywhere | SCInstall/SCDevEnum.cpp:352-355 | a glob match needs the literal prefix before the first '*' as a case-insensitive prefix of the item, the rest matching somewhere after it |
| IdMatch.MatchLast | SCInstall/SCDevEnum.cpp:386-393 | the last literal segment matches iff it is a case-insensitive suffix of the unconsumed remainder |
| IdMatch.MatchMiddle | SCInstall/SCDevEnum.cpp:373-442 | each middle-segment step either decides the match or advances while preserving whether the rest of the item matches the rest of the pattern |
| IdMatch.ScanFor | SCInstall/SCDevEnum.cpp:394-425 | the scan stops at the first character equal, ignoring case, to the one searched for |
| IdMatch.WildCompareHwIds | SCInstall/SCDevEnum.cpp:458-469 | TRUE iff some string before the null entry matches the entry; FALSE for a missing array |
| IdMatch.IdMeaning | SCInstall/SCDevEnum.cpp:101-129 | what an ID argument matches: a quoted body literally ignoring case, any other body as a glob |
| IdMatch.StarMatchesEveryId | SCInstall/SCDevEnum.cpp:359-444 | the pattern "*" matches every item |
| IdMatch.QuotedStarIsLiteral | SCInstall/SCDevEnum.cpp:114-118 | the pattern "'*" matches only the item "*" |
| Glob.StarAnywhere | SCInstall/SCDevEnum.cpp:359-443 | a leading '*' matches iff the rest of the pattern matches some suffix |
| Glob.LiteralThen | SCInstall/SCDevEnum.cpp:352-355 | a wildcard-free segment followed by a pattern matches iff the segment is a case-insensitive prefix and the pattern matches the rest |
| Glob.AnywhereLiteral | SCInstall/SCDevEnum.cpp:385-393 | a wildcard-free pattern matches some suffix iff it is a case-insensitive suffix |
| Glob.FoldClass | SCInstall/SCDevEnum.cpp:394-405 | scanning for a letter's upper- and lower-case forms finds exactly the characters equal to it ignoring case |
| Glob.StarMatchesAll | SCInstall/SCDevEnum.cpp:359-444 | "*" matches every string |
| MultiSz.NextNul | SCInstall/SCDevEnum.cpp:147-150 | the first NUL at or after the position, or the end of the buffer |
| MultiSz.StringsWellFormed | SCInstall/SCDevEnum.cpp:147-167 | every string of a terminated multi-sz is non-empty and NUL-free |
| MultiSz.CountStrings | SCInstall/SCDevEnum.cpp:147-150 | the first pass counts exactly the strings before the empty terminator |
| MultiSz.FillPointers | SCInstall/SCDevEnum.cpp:158-166 | the second pass points the entries at the strings in order and leaves the slot after them as it was |
| MultiSz.GetMultiSzIndexArray | SCInstall/SCDevEnum.cpp:140-168 | fails iff allocation fails; otherwise one entry per string, in order, followed by a null entry |
| MultiSz.PaddedTerminated | SCInstall/SCDevEnum.cpp:236-238 | a value padded with two NULs, as GetDevMultiSz and GetRegMultiSz (299-300) pad it, is a terminated multi-sz from its start, which is what GetMultiSzIndexArray requires |
| MultiSz.JoinParses | SCInstall/SCDevEnum.cpp:147-167 | joining non-empty NUL-free strings with NULs and a final NUL gives a multi-sz that parses back to those strings |
| MultiSz.ParseJoins | SCInstall/SCDevEnum.cpp:147-167 | a terminated multi-sz begins with the join of the strings it parses to |

## Left out

- IRP and stack mechanics are not modelled: stack locations, IoCallDriver, completion routines and the real detach and delete. The lower device is an input status; forwarding, completion, detach and delete are trace events.
- Concurrency is not modelled: spinlocks, IRQL, and the real drain wait, which is the single `WaitDrain` event. The remove lock is a count plus a flag.
- The remove lock is not balanced on several paths, and the model keeps the extra reference rather than proving a balance:
  - filter QUERY_ID and QUERY_CAPABILITIES (Filter.c:301-330);
  - clone QUERY_ID for an unsupported ID type (clone.c:118-122);
  - the clone's success- and repeat-helper paths (clone.c:66-91).
- The filter's role-tag check (Filter.c:56-60) calls the failure routine but does not return. The filter model has no role tag and follows only the path of a device tagged as a filter. The clone's checks are modelled.
- What the failure routine leaves in the clone's status block is not modelled. `CloneEnv.incoming` is the block as the request carries it when its minor function is read.
- Filter BusRelations reports the clone and then falls through into the default forwarding case. The model gives it that forwarding, with no fail-and-return before.
- The deferred-queue routines (queue growth, wait-mask completion, purge, XOFF counter, immediate-char transmission) and the modem-status update are not modelled. Only the validation in front of them is, and their result status is an input.
- SerialProperties.PropertiesReport: the setting and provider bitmasks of GET_PROPERTIES are not stated; they are constants copied into the record.
- SerialProperties.CommStatusReads: the output-queue count, which depends on the current write request, is an abstract number.
- SerialProperties.DispatchKeepsInvariants: holds for `Dispatch`, which uses the corrected SET_LINE_CONTROL. For the code as written, the error half fails on unrecognised line settings (see the finding); `DispatchAsWrittenKeeps` states what remains true.
- ClonePnp.CachedCapsReachClone: the clone re-points the request's capability pointer at the filter's record (clone.c:151) and copies nothing into the caller's capability buffer, unlike the filter's copy at Filter.c:326. What the caller's buffer ends up holding is not modelled; the model records only where the pointer is left.
- CloneIOctl.c:33-52 and clone.c:446-480 both define `CloneDeviceIoControlDispatch`. The serial model (`SerialIoctl.Dispatch`) follows the first, which answers through `CloneSerialIoControl`; `Irp.PassThroughRule` follows the second, which forwards. Which one is linked is decided by build files that are not part of this model.
- The WMI mirror fields are not modelled, and neither is the `SERIAL_EV_*` wake-up of a previous waiter.
- ReadComplete's buffer dump is a debug print and is not modelled; only its lock release is.
- The initial PnP state is set by code that is not part of this model. Every property holds from any state.
- The installer's registry and SetupDi calls (`GetDeviceStringProperty`, `GetDevMultiSz`, `GetRegMultiSz`, `FindDevices`) and `DelMultiSz`'s memory handling are not modelled. The hidden array slot before the first entry is not modelled either.
- Case folding is the C-locale ASCII folding. Non-ASCII letters compare as themselves.

## Findings

| source | as written | input that shows it | evidently intended | confidence | as-written member | corrected member |
|---|---|---|---|---|---|---|
| driver/CloneIOctl.c:235-313 | SET_LINE_CONTROL sets the status to INVALID_PARAMETER on an unrecognised field but still falls through: the uninitialised data, parity or stop local is OR-ed into LineControl, the register is written, and DataMask gets its 0xff default | word length 9 on a port with mask 0x1f: the register is written with stale bits and the mask becomes 0xff, though the request fails | an invalid request leaves the register and the data mask untouched | not executed | SerialProperties.AsWrittenCounterexample | SerialProperties.LineControlInvalid |
