# elan-guardian: verification model

A Dafny model of the patched ELAN touchpad driver, its Rust core and the userspace monitor
`elan-guardian`, with proofs of what they promise. Check everything with
`dafny verify dfyconfig.toml`.

## What is modelled

**The driver's concurrency** (`Policy`, `Protocol*`). A step system: the threaded interrupt handler,
the watchdog work item, suspend/resume, and any number of user threads (opens, closes, `recover`,
`calibrate`, `acquire`, `update_fw`, reading shows) interleave at every shared access and every bus
call; each bus call returns any status the transports can return. The handler's read and write of
`report_errors` are two steps. `disable_irq` is two steps as well, raising the depth and then
waiting for the handler; depths nest; `cancel_work_sync` waits for running work, and the work cannot
be queued while a canceller waits. `Config` selects what differs between deployments: the watchdog
parameter, the order of `elan_suspend` (the vendored file cancels the work before it masks the
interrupt, the patch masks first), the transport (I2C lets the interrupt through while a firmware
update finishes) and whether user threads are frozen during suspend and resume. `ProtocolInvariant`
holds the invariant and its preservation, `ProtocolTheorems` what it means for every run,
`ProtocolProgress` deadlock freedom and termination, `ProtocolSuspend` and `ProtocolMode` the
properties that hold only for some configurations, each with the exact condition and a reachable
counterexample (`ProtocolRuns` builds those). `ProtocolCounts` counts reads, emissions and
recoveries over runs.

**The driver's operations** (`Driver`). The same operations, alone under the mutex, with every bus
call: initialization, health check, recovery by phases, calibration and baseline acquisition, as
methods of `TouchpadData` over a `Bus` whose answers are any integers. `ProtocolDriver` ties the two
models together: an operation of the step system that runs undisturbed does what `Driver` says.

**Reports** (`Bits`, `Decoder`, `Reports`, `Refinement`, `ReportProperties`, `ReportRoundTrip`). The
Rust decoder filling a frame in place, the C shim that emits it, and the original C decoder that is
still in the tree as the reference. Bytes are numbers below 256; each bit expression of the source
is a method whose contract says which number it is. The Rust core is compiled with
`overflow-checks=no` (`kernel/rust-shim/Makefile:39`), so `scaled_pressure` wraps before it clamps;
the C side is unsigned. `ReportRoundTrip` writes the layouts from the sender's side and shows that
they are read back.

**Firmware** (`Firmware`). Page geometry, the page loop with its checksum, the image checks, and how
the I2C transport frames a page.

**The monitor** (`WatchdogText`, `Consumer`, `BacklogHistory`, `Monitor`, `MonitorBacklog`,
`MonitorRefresh`, `MonitorTiming`, `MonitorRecoveries`). The `runtime_watchdog` text as printed and
parsed, the backlog and recovery observers, the consumer list, and one pass of the monitor's loop as
a method of `Guardian`. Scans, discovery, polls and the outcome of each rebind come from a `World`
handed to each pass. Times are nanoseconds of a monotone clock.

## Where the code and its promises part

- The vendored `elan_suspend` can leave watchdog work queued in a suspended device: the handler
  requeues it after the cancel. The patch's order cannot (`SuspendIsQuietExactly`).
- `elan_resume` re-initializes without the mutex. If user threads run meanwhile, its read and write of
  `mode` can bring back a calibrate bit that a calibration has just taken back
  (`ModeIsSafeExactly`), and a recovery can return 0 with `mode` and the device apart
  (`RecoveryRestoresExactly`).
- A failed mode switch on the way out of a calibration or acquisition leaves the device calibrating
  while the driver believes it is not, until a recovery (`DeviceLeftCalibrating`,
  `DeviceLeftAcquiring`).
- "Left unread for the whole grace period" holds of the monitor exactly while every verdict so far was
  followed by a clear (`PromiseExactly`). When no controller owns the stalled node, for example
  because its event nodes could not be read in that scan, the monitor does not clear, and a sample
  that a call did not reach then counts as still waiting (`UnownedNodeMisleads`; `StallExactly` says
  what is acted on in every case).
- After a re-probe that no scan saw, new kernel recoveries can go unnoticed (`ReprobeHidesExactly`).
- An image whose boot-page count reaches the page count is accepted and sends nothing, if the
  controller then reports checksum 0 (`EmptyPayload`, `NothingToFlash`).

One premise the code relies on without stating it: a recovery's 0 can be trusted exactly if transports
never answer positively (`ZeroMeansDoneExactly`). Those of this driver do not.

## Model

| member | source | states |
|---|---|---|
| Policy.ActionIsThreshold | kernel/rust-shim/elan_core.rs:300-315 | With a node open the watchdog recovers from the threshold on (from 3 on, not at 2, for a threshold of 3) or after a failed probe, and keeps recovering with more open nodes, worse probes or more errors; without one it is disarmed, and a threshold of 0 switches the counter off. |
| ProtocolInvariant.StepKeeps | kernel/rust-shim/upstream/elan_i2c_core.c:875-965 | Every step of the handler, of any thread and every arrival keeps the system invariant: who holds the mutex, who masks, that the handler is idle in a masked section, the exact counter, the paid-for attempts, and that a recovery is covered by an open node or a waiting close. |
| ProtocolTheorems.DepthIsBalanced | kernel/rust-shim/upstream/elan_i2c_core.c:560-585 | In every reachable state the interrupt's disable depth is the number of threads holding a level, which is one for the mutex holder's masked section (less the I2C finish window) plus one for suspend; never negative, at most 2, zero when the mutex is free and the device awake. |
| ProtocolTheorems.ErrorCounterIsExact | kernel/rust-shim/upstream/elan_i2c_core.c:1274-1286 | Except between the handler's read and write, `report_errors` equals, modulo 2^32, the failed reads since the last successful read or reset; no interleaving loses an update. |
| ProtocolTheorems.RecoveriesArePaidFor | kernel/rust-shim/upstream/elan_i2c_core.c:883-896 | In every run three times the automatic recovery attempts never exceed the failed reads, and counted recoveries never exceed attempts. |
| ProtocolTheorems.AttemptsAreEvaluated | kernel/rust-shim/upstream/elan_i2c_core.c:883-888 | The only step that begins an automatic recovery is the work item's evaluation, under the mutex, with a node open and the counter at the threshold. |
| ProtocolTheorems.EvaluationIsExact | kernel/rust-shim/upstream/elan_i2c_core.c:883-896 | In every state of the invariant in which the work item evaluates, its step begins an attempt if and only if a node is open and at least 3 reads have failed; otherwise it lets go of the mutex and counts nothing. |
| ProtocolTheorems.QueueingIsExact | kernel/rust-shim/upstream/elan_i2c_core.c:1274-1283 | A handler that has stored r failures goes on to queue if and only if the watchdog is on, a node is open and r is at least 3; the work is then pending if it was, or if the watchdog is on, a node is still open and nobody is cancelling. |
| ProtocolCounts.CountersAreExact | kernel/rust-shim/upstream/elan_i2c_core.c:1269-1300 | In every run the successful reads are the emissions of what they say, and the reports counted, up to the one the handler is still at; the failed reads are the failures recorded; and the recoveries shown are the automatic recoveries that returned 0, up to the one just returning. |
| ProtocolDriver.RecoveryAlone | kernel/rust-shim/upstream/elan_i2c_core.c:815-852 | For every script of bus answers a recovery that runs undisturbed in the step system returns the status of the sequential model, with its mode, its acknowledged mode, no error counted and inputs up: its tries and checks are the same. |
| ProtocolDriver.WorkAlone | kernel/rust-shim/upstream/elan_i2c_core.c:875-900 | The same of the whole work item from its evaluation to its return: it recovers if and only if a node is open and at least 3 reads failed, counts the attempt, counts the recovery if and only if it returned 0, and gives back interrupt depth and mutex. |
| ProtocolDriver.RecoverStoreAlone | kernel/rust-shim/upstream/elan_i2c_core.c:938-965 | The same of a recovery asked for through sysfs, from lock to return, not counted as automatic. |
| ProtocolDriver.InitAlone | kernel/rust-shim/upstream/elan_i2c_core.c:339-354 | Where the step system initializes (recovery, the end of a firmware update, resume) it retries, and leaves mode and device, exactly as the sequential initialization does on the same answers. |
| ProtocolDriver.CalibrateAlone | kernel/rust-shim/upstream/elan_i2c_core.c:701-766 | A calibration undisturbed in the step system leaves mode and device as the sequential one does on the same answers. |
| ProtocolDriver.AcquireAlone | kernel/rust-shim/upstream/elan_i2c_core.c:997-1055 | The same of a baseline acquisition. |
| ProtocolTheorems.LastCloseEndsRecovery | kernel/rust-shim/upstream/elan_i2c_core.c:918-924 | After the last close has returned no automatic recovery is in progress, and none begins in any continuation without an open, even if the handler queues work after the close's cancel. |
| ProtocolTheorems.RecoveryKeepsInputsReleased | kernel/rust-shim/upstream/elan_i2c_core.c:791-852 | From the release until the caller unmasks, whatever status the recovery returned, all slots are inactive, all buttons up and the handler idle. |
| ProtocolTheorems.FirmwareUpdateIsSilent | kernel/rust-shim/upstream/elan_i2c_i2c.c:697-709 | While `in_fw_update` is set no step of any thread or of the handler changes the emitted input or any counter, including the window in which the interrupt is enabled. |
| ProtocolProgress.NoDeadlock | kernel/rust-shim/upstream/elan_i2c_core.c:883-924 | In every state of the invariant that is not at rest the handler or some thread can step, even if all bus calls fail and no signal arrives. |
| ProtocolProgress.RunsAreBounded | kernel/rust-shim/upstream/elan_i2c_core.c:560-590 | A run without new arrivals has at most as many steps as the rank of its start: no schedule and no bus behaviour makes the operations spin. |
| ProtocolProgress.StuckMeansAtRest | kernel/rust-shim/upstream/elan_i2c_core.c:1571-1638 | Where nothing can step, every call has returned: the mutex is free, no update is marked, the counter exact, and the depth is one exactly if suspended. |
| ProtocolSuspend.PatchedSuspendIsQuiet | kernel/0001-input-elan-i2c-add-in-place-recovery.patch:495-505 | With the patch's order (or the watchdog off) no work is pending or running from a successful suspend until the resume unmasks, in any run. |
| ProtocolSuspend.VendoredSuspendRequeues | kernel/rust-shim/upstream/elan_i2c_core.c:1582-1587 | With the vendored order and the watchdog on, a run exists that suspends successfully with work pending. |
| ProtocolSuspend.SuspendIsQuietExactly | kernel/rust-shim/upstream/elan_i2c_core.c:1582-1609 | A suspend leaves no work behind in any run if and only if the order is the patch's or the watchdog is off. |
| ProtocolMode.FrozenResumeIsSafe | kernel/rust-shim/upstream/elan_i2c_core.c:701-766 | With user threads frozen during resume, `mode` always has ABS, and CALIBRATE only inside the calibrate or acquire window of the mutex holder, on all success and error paths. |
| ProtocolMode.RecoveryRestoresMode | kernel/rust-shim/upstream/elan_i2c_core.c:844-851 | With user threads frozen during resume: when a recovery returns 0, in any run, the mode last acknowledged by the device is `mode`, which is plain ABS, whatever earlier calibrations left behind. |
| ProtocolMode.ResumeRacesRecovery | kernel/rust-shim/upstream/elan_i2c_core.c:1611-1638 | Without the freezer a run exists in which a recovery is about to return 0 while `mode` is not what the device acknowledged. |
| ProtocolMode.RecoveryRestoresExactly | kernel/rust-shim/upstream/elan_i2c_core.c:844-851 | Every recovery that returns 0 leaves the device in `mode`, in all runs, if and only if user threads are frozen during resume. |
| ProtocolMode.ResumeRacesCalibration | kernel/rust-shim/upstream/elan_i2c_core.c:1611-1638 | Without the freezer a run exists after which the calibrate bit is set and nobody calibrates. |
| ProtocolMode.ModeIsSafeExactly | kernel/rust-shim/upstream/elan_i2c_core.c:319-325 | The mode property holds in all runs if and only if user threads are frozen during resume. |
| Driver.TouchpadData.InitializeOnce | kernel/rust-shim/upstream/elan_i2c_core.c:284-337 | One initialization makes exactly the specified bus calls in order, stops at the first non-zero status, and adds ABS to the mode before switching. |
| Driver.TouchpadData.Initialize | kernel/rust-shim/upstream/elan_i2c_core.c:339-354 | Log, mode and status are those of the retrying initialization, which `InitTries` and `InitSucceedsExactly` determine from the answers. |
| Driver.TouchpadData.WatchdogPing | kernel/rust-shim/upstream/elan_i2c_core.c:860-873 | Log and status are those of the retrying health check, which `PingSucceedsExactly` determines from the answers. |
| Driver.TouchpadData.ReleaseInputs | kernel/rust-shim/upstream/elan_i2c_core.c:791-811 | All slots inactive and all buttons up, those of the trackpoint too if there is one. |
| Driver.TouchpadData.RecoverLocked | kernel/rust-shim/upstream/elan_i2c_core.c:815-852 | Whatever status it returns, inputs are released and the error count is zero; log, mode, status and visited phases are those of the recovery, whose status `RecoveryFromAnswers` determines from the answers. |
| Driver.TouchpadData.RecoverStore | kernel/rust-shim/upstream/elan_i2c_core.c:938-965 | A manual recovery restores the masking depth and does not count as an automatic one. |
| Driver.TouchpadData.WatchdogWork | kernel/rust-shim/upstream/elan_i2c_core.c:875-900 | Recovers if and only if a node is open and at least 3 reads have failed, counts the recovery (modulo 2^32) exactly if it returned 0, and otherwise changes nothing; the masking depth is restored. |
| Driver.TouchpadData.CalibrateStore | kernel/rust-shim/upstream/elan_i2c_core.c:701-766 | Its calls, the polling of at most 20 results, the mode and the status are those of the calibration specification; the depth is restored on every path. |
| Driver.TouchpadData.AcquireStore | kernel/rust-shim/upstream/elan_i2c_core.c:997-1055 | As specified; the baselines are ready exactly when both reads succeeded, even if leaving calibration mode failed. |
| Driver.InitFollowsPlan | kernel/rust-shim/upstream/elan_i2c_core.c:284-337 | One initialization issues a prefix of a fixed call plan (reset unless skipped, product, pattern, version, then wake and mode switch, in the order the firmware needs), stopping at the first failure and returning its status; 0 means the whole plan was answered with 0, and ABS is recorded exactly if the switch was tried. |
| Driver.InitTries | kernel/rust-shim/upstream/elan_i2c_core.c:339-354 | An initialization is one to three tries, the later ones beginning with a reset, each a prefix of its call plan up to its first failure; every try but the last failed, the status is that of the last call, and a failure means that all tries were made. |
| Driver.InitSucceedsExactly | kernel/rust-shim/upstream/elan_i2c_core.c:339-354 | It returns 0 if and only if one of at most three tries, each starting after the failure of the one before, is answered with 0 throughout; stated on the answers alone. |
| Driver.AsusProducts | kernel/rust-shim/upstream/elan_i2c_core.c:267-282 | Exactly the six listed controller and product pairs are woken before the mode switch. |
| Driver.InitIsBounded | kernel/rust-shim/upstream/elan_i2c_core.c:339-354 | Initialization makes at most six calls a try, only appends to the log, and changes the mode at most by ABS. |
| Driver.PingIsBounded | kernel/rust-shim/upstream/elan_i2c_core.c:860-873 | At most one call a try, mode untouched. |
| Driver.PingSucceedsExactly | kernel/rust-shim/upstream/elan_i2c_core.c:860-873 | At most three health checks up to the first 0; 0 is returned if and only if one of the next three answers is 0, and otherwise the third answer. |
| Driver.RecoveryIsBounded | kernel/rust-shim/upstream/elan_i2c_core.c:815-852 | Every recovery ends within 22 bus calls and never touches the calibrate bit. |
| Driver.PhasesInOrder | kernel/rust-shim/elan_core.rs:319-333 | Phases are visited in order, none skipped; 0 is returned if and only if COMPLETE was reached, a negative status if and only if FAILED was, nothing positive ever. |
| Driver.RecoverySucceeds | kernel/rust-shim/upstream/elan_i2c_core.c:830-851 | With transports that never answer positively, 0 means initialization, ping and mode switch all succeeded, and the device's last acknowledged mode is `mode`. |
| Driver.RecoveryFromAnswers | kernel/rust-shim/upstream/elan_i2c_core.c:815-852 | With transports that never answer positively, a recovery returns 0 if and only if one of three tries is answered with 0 throughout, one of the next three health checks is answered with 0, and so is the mode switch after it. |
| Driver.ZeroMeansNoFailure | kernel/rust-shim/upstream/elan_i2c_core.c:830-851 | Without any premise, a recovery returns 0 if and only if none of its three stages answered negatively. |
| Driver.PositiveStatusSlipsThrough | kernel/rust-shim/elan_core.rs:319-322 | For every positive status: if the transport keeps answering it, the recovery returns 0, no stage answered 0, and the device acknowledged nothing. |
| Driver.ZeroMeansDoneExactly | kernel/rust-shim/elan_core.rs:319-333 | For any set of answers a transport may give: a returned 0 means, for all answers from that set, all logs and modes, that every stage answered 0, if and only if the set contains no positive status. |
| Driver.CalibrationPolls | kernel/rust-shim/upstream/elan_i2c_core.c:734-751 | Polling ends done exactly when one of the polls answered 0 with value 0, and no poll changes the acknowledged mode. |
| Driver.CalibrateFollowsPlan | kernel/rust-shim/upstream/elan_i2c_core.c:701-766 | The calls of a calibration in order (enter, start, result polls up to the first that reports the end or twenty, leave) and its status on every path: that of the first failure, -110 if no poll reported the end. |
| Driver.AcquireFollowsPlan | kernel/rust-shim/upstream/elan_i2c_core.c:997-1055 | The calls of an acquisition in order (enter, maximum baseline, minimum baseline, leave), stopping the reads at the first failure, and its status on every path: that of the first failure. |
| Driver.CalibrateBitIsTakenBack | kernel/rust-shim/upstream/elan_i2c_core.c:753-761 | On every path calibration and acquisition leave the calibrate bit of `mode` clear and ABS as it was, within 23 and 4 calls. |
| Driver.CalibrationSucceeds | kernel/rust-shim/upstream/elan_i2c_core.c:718-765 | Calibration returns 0 if and only if entering, starting and leaving succeeded and some poll reported the end. |
| Driver.DeviceLeftCalibrating | kernel/rust-shim/upstream/elan_i2c_core.c:753-761 | After a calibration the device stays in calibration mode if and only if it acknowledged entering and not leaving. |
| Driver.DeviceLeftAcquiring | kernel/rust-shim/upstream/elan_i2c_core.c:1042-1050 | The same of a baseline acquisition. |
| Decoder.Position | kernel/rust-shim/elan_core.rs:150-160 | The masks and shifts yield the two coordinates as numbers; that these are the ones sent is `ContactRoundTrip`. |
| Decoder.Widths | kernel/rust-shim/elan_core.rs:179-185 | The nibbles become the tool width and the saturating products of traces, larger and smaller. |
| Decoder.FrameBuffer.DecodeContact | kernel/rust-shim/elan_core.rs:144-187 | One touched slot: it fails exactly when the width byte is missing for a contact in range; otherwise exactly that contact and its mask bit are set. |
| Decoder.FrameBuffer.DecodeSlot | kernel/rust-shim/elan_core.rs:131-190 | One turn keeps: contacts below the slot decoded, those above empty, the mask their active bits, and the moving offset 4 + 5 per touched slot below. |
| Decoder.FrameBuffer.DecodeAbsolute | kernel/rust-shim/elan_core.rs:106-193 | Status 0 exactly when all needed bytes fit, and then the frame is the one specified slot by slot. |
| Decoder.FrameBuffer.DecodeTrackpoint | kernel/rust-shim/elan_core.rs:195-221 | Accepted exactly from nine bytes on; buttons and the signed motion as specified. |
| Decoder.FrameBuffer.Decode | kernel/rust-shim/elan_core.rs:232-296 | The status and, when 0, the frame depend on the report alone, never on the buffer's earlier contents. |
| ReportProperties.OffsetCountsTouches | kernel/rust-shim/elan_core.rs:127-145 | Contact k starts at 4 + 5 times the number of touched slots below k. |
| ReportProperties.MaskIsActive | kernel/rust-shim/elan_core.rs:168 | Bit k of the contact mask is set exactly for active contacts. |
| ReportProperties.ContactsAreConsistent | kernel/rust-shim/elan_core.rs:162-187 | Active, mask bit set, and touched with coordinates in range coincide; inactive contacts are all zero. |
| ReportProperties.AxesExactly | kernel/rust-shim/upstream/elan_i2c_core.c:1384-1406 | All contacts of all accepted frames lie in the axis ranges declared to the input core, if and only if the declared maxima (positions, and fifteen widths when widths are reported) fit an int. |
| ReportProperties.TransportReports | kernel/rust-shim/upstream/elan_i2c_i2c.c:725-733 | At the lengths and features either transport reports, standard and trackpoint reports are never rejected; a high-precision one is accepted exactly when no contact in range has its width byte past the end, so always at length 39. |
| ReportRoundTrip.ContactRoundTrip | kernel/rust-shim/elan_core.rs:144-187 | A contact packed by the sender into the five bytes and the width nibbles of its slot, standard with 12-bit or high-precision with 16-bit coordinates, is read back from any accepted report holding it: exactly x, maxY - y, the clamped pressure, its width and areas if it lies inside the axes, and nothing otherwise. |
| ReportRoundTrip.UntouchedIsEmpty | kernel/rust-shim/elan_core.rs:131-145 | A slot whose touch bit is not set decodes to nothing. |
| ReportRoundTrip.ButtonsAndHover | kernel/rust-shim/elan_core.rs:122-125 | Left, right and middle button are bits 0, 1 and 2 of the touch byte as emitted, and hover is bit 6 of byte 30 where there is one. |
| ReportRoundTrip.MotionRoundTrip | kernel/rust-shim/elan_core.rs:195-221 | Every motion the format can carry (x from -510 to 255, y from -255 to 510), packed into a motion packet with its buttons, reaches the trackpoint device as exactly that motion and those buttons. |
| ReportRoundTrip.NoMotion | kernel/rust-shim/elan_core.rs:214-218 | A packet of another kind is accepted and moves nothing. |
| ReportRoundTrip.RejectedExactly | kernel/rust-shim/elan_core.rs:247-295 | Reports too short for a report number or for a trackpoint packet are -22, unknown report numbers -71. |
| ReportRoundTrip.AcceptedExactly | kernel/rust-shim/elan_core.rs:131-181 | A contact report is accepted if and only if it has four bytes and five for each touched slot, and in high precision with widths the width byte of every touched slot inside the axes. |
| Reports.InputDevice.EmitAbsolute | kernel/rust-shim/elan_rs_shim.c:13-50 | The input state after the slot loop is the emission of the frame: inactive slots released, axes of active ones set, widths only with features, buttons and hover from the frame. |
| Reports.InputDevice.EmitReport | kernel/rust-shim/elan_rs_shim.c:73-97 | A rejected report leaves both input devices unchanged and returns the decoder's status; an accepted one changes exactly the device it is for; a trackpoint report without a trackpoint is ENODEV. |
| Reports.InputDevice.ReportContact | kernel/rust-shim/upstream/elan_i2c_core.c:1131-1193 | The original decoder's handling of one slot, with unsigned wrap-around, leaving other slots alone. |
| Reports.InputDevice.ReportAbsolute | kernel/rust-shim/upstream/elan_i2c_core.c:1195-1224 | The original decoder as an update of the input state. |
| Refinement.PressureExactly | kernel/rust-shim/elan_core.rs:100-103 | The clamped signed and the unsigned pressure agree on every raw byte if and only if the adjustment is non-negative and cannot overflow. |
| Refinement.AreaExactly | kernel/rust-shim/elan_core.rs:128-129 | The saturating and the wrapping product agree on every nibble exactly for the stated trace widths, among them all from 90 up to where the product leaves 32 bits. |
| Refinement.ShimRefinesOriginal | kernel/rust-shim/elan_rs_shim.c:13-50 | For every accepted report and any input state the Rust decoder with the shim leaves the same buttons, hover, tool width and slots as the original C decoder, except that a contact out of range releases its slot where the original leaves it. |
| Refinement.RefinesExactly | kernel/rust-shim/upstream/elan_i2c_core.c:1131-1224 | The two agree on all accepted reports with contacts in range, from all input states, if and only if the device context is good: pressure and width arithmetic agree and no feature other than MK is set. |
| Firmware.GetFwInfo | kernel/rust-shim/upstream/elan_i2c_core.c:149-210 | For a known controller the rescaled page count times the page size equals the unscaled count times 64, and whole pages end with the signature; otherwise an error and nothing else. |
| Firmware.FirmwareKiB | kernel/rust-shim/upstream/elan_i2c_core.c:149-210 | The firmware size of each controller in KiB, and exactly which controllers and IAP versions take pages of 512, 128 and 64 bytes. |
| Firmware.WriteWithRetry | kernel/rust-shim/upstream/elan_i2c_core.c:484-501 | It tries until the first 0 and at most three times: 0 is returned if and only if one of the next three answers is 0, the last answer otherwise; the page is acknowledged once or not at all. |
| Firmware.WordTotalAppend | kernel/rust-shim/upstream/elan_i2c_core.c:525-537 | Word totals add up over concatenation, which is what lets page sums make up the image's. |
| Firmware.WordTotalIsPairSum | kernel/rust-shim/upstream/elan_i2c_core.c:525-528 | The word total is the sum of `page[2k] + 256 * page[2k + 1]` over the pairs of bytes. |
| Firmware.PageChecksum | kernel/rust-shim/upstream/elan_i2c_core.c:525-528 | The 16-bit loop computes the sum modulo 2^16 of `page[2k] + 256 * page[2k + 1]` over the page. |
| Firmware.PagesAreContiguous | kernel/rust-shim/upstream/elan_i2c_core.c:520-525 | The pages sent concatenate to exactly the image range between the first and the last, no gap, no overlap. |
| Firmware.FlashPages | kernel/rust-shim/upstream/elan_i2c_core.c:520-537 | 0 is returned if and only if the transport acknowledges every page within its tries; then all pages from the boot pages on are acknowledged in order, each under its index, and the sum is that of the bytes sent; otherwise a proper prefix of them is and the last answer is returned. Every read is inside a checked image. |
| Firmware.FlashedImage | kernel/rust-shim/upstream/elan_i2c_core.c:520-537 | What was sent is the payload: the image from `boot_page_count * page_size` to the end of the signature, nothing if the boot pages reach past it. |
| Firmware.PayloadIsWanted | kernel/rust-shim/upstream/elan_i2c_core.c:520-524 | Stated on the bytes of the image alone: with the address `image[0x106] + 256 * image[0x107]` in words, the payload runs from the start of the page that holds its first byte to the end of the signature, and is empty if and only if that page starts at or past the end. |
| Firmware.PagesAreNumbered | kernel/rust-shim/upstream/elan_i2c_core.c:524-532 | The pages sent are, in order, those from the first to the last, each with its own index and its own bytes of the image. |
| Firmware.EmptyPayload | kernel/rust-shim/upstream/elan_i2c_core.c:523-524 | The payload is empty if and only if the boot-page count reaches the page count, and then no page has to be acknowledged. |
| Firmware.NothingToFlash | kernel/rust-shim/upstream/elan_i2c_core.c:520-550 | A signed image with start address 0xFFFF passes for a successful update that sends nothing, on every controller but the largest, if the controller then reports checksum 0. |
| Firmware.Update | kernel/rust-shim/upstream/elan_i2c_core.c:503-558 | 0 if and only if prepare, every page, finish and checksum read succeed and the controller's checksum is the payload's word sum; then exactly the image from the page of its start address to the end of the signature was sent, and the checksum is its byte-pair sum modulo 2^16. Otherwise the status of the first stage that failed. |
| Firmware.SysfsUpdate | kernel/rust-shim/upstream/elan_i2c_core.c:643-699 | Unidentified controllers (-22), short and unsigned images (-9) fail with no transport call; 0 if and only if the image is good and its update succeeds, and then the image ends in the six signature bytes and the controller acknowledged exactly what `Update` states. |
| Firmware.I2cFrame | kernel/rust-shim/upstream/elan_i2c_i2c.c:634-656 | The frame starts with the page register, and reading it back yields exactly the page and the checksum. |
| WatchdogText.DecimalDigits | kernel/rust-shim/upstream/elan_i2c_core.c:931-935 | A printed number consists of digits and reads back as itself. |
| WatchdogText.CountIsSecondField | src/watch.rs:35-41 | If the first field does not start like the counter and the second is the counter, it is read whatever follows. |
| WatchdogText.AllFieldsRoundTrip | kernel/rust-shim/upstream/elan_i2c_core.c:931-935 | For all field values each of the four printed fields reads back, from its own label, as its value, and the monitor's count is exactly the recoveries number. |
| WatchdogText.ParsesExactly | src/watch.rs:35-41 | The monitor accepts only digits, with or without a plus sign in front, and of printed numbers exactly those below 2^64. |
| WatchdogText.WhitespaceIs | src/watch.rs:37 | Fields are separated by the five ASCII whitespace characters. |
| Consumer.BacklogObserver.Observe | src/consumer.rs:100-120 | Its new entries and verdict are those of the scan over retained entries, including the early return. |
| Consumer.ConsumerMonitor.RefreshIfDue | src/consumer.rs:40-50 | Refreshes exactly when due; a failed discovery changes nothing, so the next call tries again. |
| Consumer.ConsumerMonitor.SampleReadiness | src/consumer.rs:65-81 | Dead and failing descriptors leave the list; the rest are sampled in order. |
| BacklogHistory.ScanVerdict | src/consumer.rs:109-119 | The verdict of one call is the first ready sample whose entry is at least the grace period old, none exactly when there is none. |
| BacklogHistory.ScanEntries | src/consumer.rs:106-118 | What one call leaves for one key, by whether it saw it ready, idle or not at all. |
| BacklogHistory.EntryIsRunStart | src/consumer.rs:94-125 | After any history of calls and clears a key has an entry exactly if it has an unbroken run, and the entry is the time its run began. |
| BacklogHistory.VerdictIsFirstOverdue | src/consumer.rs:109-119 | In any history, a call names the first sample in order that is ready and whose run spans the grace period; none exactly when there is none. |
| BacklogHistory.ContinuousBacklog | src/consumer.rs:99-125 | If every verdict is followed by a clear, that run means present and ready in every call over at least the grace period. |
| BacklogHistory.SkippedIdleSample | src/consumer.rs:109-119 | Without the clear, an observer can name a key although an earlier call in between saw it idle, at any times from the grace period on. |
| Monitor.Guardian.constructor | src/watch.rs:43-49 | Nothing seen, nothing watched, no cooldown. |
| Monitor.Guardian.RebindRecovered | src/watch.rs:56-90 | The loop over the controllers marks counts and rebinds as specified, and starts the cooldown exactly if some rebind succeeded. |
| Monitor.Guardian.WatchConsumers | src/watch.rs:98-154 | The consumer half: refresh if due, sample, observe, rebind the first controller owning the stalled node; clear and force a refresh after an attempt in either outcome, and not when no controller owns it. |
| Monitor.Guardian.Pass | src/watch.rs:51-158 | One pass is the transition specified, with exactly its rebinds, a controller's kernel-triggered and stall rebinds of one pass succeeding or failing independently; a failed scan changes nothing. |
| MonitorBacklog.HistoryBehaves | src/watch.rs:92-154 | The passes of any run drive the backlog observer through a history that is one of its behaviours, in time order, and that ends in the entries the monitor then holds. |
| MonitorBacklog.OwnerIsFirst | src/watch.rs:124-126 | The controller rebound for a node is the first scanned one that has it; there is none if and only if none has. |
| MonitorBacklog.StallExactly | src/watch.rs:119-152 | In any run, a pass rebinds a controller for a stalled consumer if and only if it polls and, over the history of all passes, the first overdue ready consumer belongs to that controller, the first one scanned with that event node. |
| MonitorBacklog.OwnedRunSettles | src/watch.rs:124-153 | If every polled consumer's node is on a scanned controller in every pass, every verdict is followed by a clear. |
| MonitorBacklog.StallIsContinuous | src/watch.rs:119-152 | While every verdict so far was followed by a clear, a stall rebind happens if and only if the first consumer found unread in every poll of at least the last 750 ms is that controller's. |
| MonitorBacklog.UnownedNodeMisleads | src/watch.rs:124-153 | Otherwise it fails: in a run with passes at 0 and at any two later times from 750 ms on, where the first controller's event nodes cannot be read in the second pass, the second controller is rebound for a consumer found idle in between, so that the promise does not hold of the rebind. |
| MonitorBacklog.PromiseExactly | src/watch.rs:119-153 | Whatever time is slept between passes, the promise holds in all runs if and only if the runs are restricted to those in which every verdict so far was followed by a clear. |
| MonitorRefresh.CoolingIs | src/watch.rs:92-97 | In every run a pass is in the cooldown if and only if some earlier successful rebind, of either kind, is less than 5 s old. |
| MonitorRefresh.WatchedIsKnown | src/consumer.rs:40-55 | In every run the monitor watches exactly the surviving consumers of the last successful discovery since the start or since a pass that forgot it, and none if there was none. |
| MonitorRefresh.PolledExactly | src/watch.rs:98-122 | In every run a pass outside the cooldown polls the consumers of its own discovery, if it succeeded and none is remembered or the last is at least 2 s old, and otherwise those left of the last; the backlog observer gets one sample for each that is alive, in that order. Other passes sample nothing. |
| MonitorRefresh.PolledListIsFresh | src/consumer.rs:40-50 | So the list polled is less than 2 s old unless the discovery of this very pass failed. |
| MonitorRefresh.KnownComesFrom | src/consumer.rs:65-92 | A remembered discovery was made by one pass, nothing was rebound and no cooldown came since, and of its consumers exactly those are left that were alive in every poll since. |
| MonitorTiming.PassKeeps | src/watch.rs:51-158 | One pass keeps: attempts so far keep their distances, a success is covered by the cooldown, and backlog entries are no older than the earlier attempts and the sleep allow. |
| MonitorTiming.StallRebindsKeepApart | src/watch.rs:92-156 | In every run with at least d slept between passes a consumer-stall rebind comes at least max(5000 ms, d) + max(750 ms, d) after any earlier successful rebind of either kind, and at least d + max(750 ms, d) after any earlier stall attempt, failed or not. |
| MonitorTiming.StallsTakeTime | src/watch.rs:119-156 | In every such run, of n consumer-stall attempts the last comes at least (n - 1) times d + max(750 ms, d) after the first. |
| MonitorTiming.BoundsAreReached | src/watch.rs:119-156 | For every d a run with at least d between passes reaches both distances exactly, so neither bound can be raised. |
| MonitorRecoveries.NoticesExactly | src/watch.rs:56-89 | For a scanned controller exactly one kernel-triggered rebind is made when its count is above the last one marked, and none otherwise; what is marked afterwards. |
| MonitorRecoveries.AttemptsArePaidFor | src/watch.rs:56-89 | Over any stretch of any run, attempts plus unnoticed recoveries grow by no more than the recoveries made, whatever is re-probed, rebound or not scanned. |
| MonitorRecoveries.AtMostOncePerRecovery | src/watch.rs:63-85 | In any run the kernel-triggered rebinds of a controller never outnumber its automatic recoveries. |
| MonitorRecoveries.FailedRebindIsNotRetried | src/watch.rs:80-85 | After an attempt, failed or not, no further one is made until the driver recovers again, whatever passes and re-probes follow. |
| MonitorRecoveries.ReboundStartsOver | src/watch.rs:69-73 | After a successful rebind of either kind the count remembered for the controller is 0. |
| MonitorRecoveries.NoticedAfterRebind | src/watch.rs:136-139 | So the next recoveries after it are noticed by the first scan that reads the counter, however often the driver had recovered before. |
| MonitorRecoveries.ReprobeHidesExactly | src/watch.rs:28-32 | After a re-probe that no scan saw and n new recoveries, the scan that next reads the counter causes no rebind if and only if n is no more than the count last marked. |
| MonitorRecoveries.HiddenForGood | src/watch.rs:63-88 | In that case no later pass causes one either, until the driver recovers again. |

## Left out

- ProtocolTheorems.AttemptsAreEvaluated: the work item's evaluation and its read of `open_count` are one step; a close between the two is ordered before or after both.
- Shared accesses are sequentially consistent; weaker orderings of unlocked reads are not modelled.
- In `Protocol` the threads' bus calls answer 0 or a negative status, as this driver's transports do, and any non-zero report read fails; `Driver` takes any integer.
- In `Protocol` one try of `elan_initialize` is one step, except in `elan_resume`, where its read and write of `mode` are separate because no mutex protects them.
- The `reinit_completion` timeout, `msleep` and all other delays in the driver: a wait can end at any time or time out at any time.
- `elan_query_device_info` after a firmware update, the `regulator` calls and wakeup configuration of suspend and resume beyond their status.
- Driver.TouchpadData.InitializeOnce: product id, pattern and version reads are calls with a value; how a transport obtains them is not modelled.
- Raw I2C and SMBus register traffic, probe, resource management, DMI and ACPI matching, the quirk table and `elan_convert_resolution`.
- Decoder.FrameBuffer.Decode: null arguments and the volatile clearing word by word; the frame is cleared field by field.
- Reports.InputDevice.EmitReport: the wakeup event, single-touch emulation, tracking ids and event fuzz of the input core are not part of this model.
- Refinement.RefinesExactly: reports shorter than the hover byte are outside the comparison, because the original reads the hover byte from a buffer that the transport always fills.
- The SMBus framing of a page in two halves, and with it flashing pages above 64 bytes over SMBus, whose halves exceed the block limit.
- Firmware.SysfsUpdate: loading the image file by name, and a signal while waiting for the mutex (the latter is in `Protocol`).
- The kernel's recovery counter wraps at 2^32 in `Driver`; `MonitorRecoveries` takes it as growing.
- Monitor.Guardian.Pass: messages and the remembered consumer count behind one of them; the sleep between passes is a premise on the times of a run (`Paced`).
- Consumer.ConsumerMonitor.RefreshIfDue: how discovery walks processes and descriptors; its result is handed in, so nothing is said about which nodes it lists.
- `BacklogHistory` takes the keys of one call as distinct, as one process has a descriptor number once.
- `src/main.rs`, `src/device.rs`, `src/recover.rs`, `src/kernel_module.rs`, `src/trace.rs`, `src/irq.rs`: input/output and parsing around the parts above.
- `src/policy.rs`, `src/diagnose.rs` and the classifiers in other languages: small case splits.
