# BlueField rshim live-fish PCIe backend: a verified model

This project models the register-access core of the rshim live-fish PCIe
backend (`rshim_pcie_lf.c`). A host program reaches a BlueField card's rshim
registers through PCI configuration space as a stack of layers:

1. **Capability accessor** (`pci_cap_read` / `pci_cap_write`). This is one 32-bit
   CR-space access through the vendor address register (0x58) and data register
   (0x5c). Bit 0 of the address word selects a read.
2. **CR gateway lock** (`trio_cr_gw_lock_acquire` / `_release`). It polls
   `TRIO_CR_GW_LOCK` until bit 31 reads clear, for at most `LOCK_RETRY_CNT + 1`
   reads. It then claims the lock with `0x80000000` and later releases it with 0.
3. **CR-space 4-byte accessor** (`crspace_rsh_gw_read` / `_write`).
   - On BlueField-2 it is a single capability access at `(addr & 0xffff) + 0x310000`.
   - On BlueField-1 it goes through the TRIO gateway under the gateway lock:
     address, control word, trigger, data and release. The data is in network
     byte order.
     - The read always moves the address into the rshim channel. The write
       leaves it in place when its low 16 bits name the boot FIFO.
     - Every step returns at the first failing write, so a failure after the
       acquire leaves the gateway lock held.
4. **Byte Access Widget** (`rshim_byte_acc_*`). One 64-bit rshim access is made
   of two 4-byte accesses.
   - Accesses are paced by the pending bit of `ACC_CTL`.
   - On BlueField-2 they are also guarded by an interlock, which is polled
     until bit 0 reads set and which shares `goto exit_*` cleanup with the rest
     of the function.
5. **Boot FIFO writer** (`rshim_boot_fifo_write`): two plain 4-byte writes,
   low word first.
6. **Backend dispatcher** (`rshim_pcie_read` / `rshim_pcie_write`).
   - It checks `has_rshim` and adds the channel base.
   - It routes boot-stream writes to the FIFO writer.
   - On BlueField-1 it keeps the 8-bit `write_count` throttle. Every eighth
     write in a row is preceded by a memory barrier and a drain read of the
     scratchpad register.

## How it is modelled

**The bus** (module `Bus`).
- A `PciDev` object holds the device revision, an environment and the trace of
  configuration-space transactions issued so far (`CfgWrite`, `CfgRead`,
  `Barrier`).
- The environment maps a whole history to the reply to its last transaction.
  So the hardware may answer anything, and a fault can be injected at any step.
- As in the source, only a write can fail, and only a negative code counts as
  a failure.

**Two forms per C function.**
- A pure specification function from the input trace to the output trace, the
  return code and the out-value (`Status`, `Reading`).
- An imperative method over `PciDev` with the C function's own control flow:
  early returns, `goto` exits as labelled blocks, and bounded `do`/`while`
  loops with invariants. Its `ensures` ties the new trace, the return code and
  the out-parameter to the specification function.
- The dispatcher is a class `RshimPcie` with the mutable fields `hasRshim` and
  `writeCount` (a `u8`).

**Polling.** The two loop shapes are stated once, in module `Polling`:
- read, then count (gateway lock, pending bit);
- count, then read (interlock).

Each has an exhaustive outcome lemma: every run stops at some read `j` and
ends in one of the described ways.

**Scripted buses.** Modules `ScriptedBus` and `WidgetScenarios` let the model
state exact transaction sequences.
- A "quiet" stretch is one on which every transaction succeeds and every read
  answers the same word. On such a stretch each access issues exactly its
  success sequence.
- Fault-injection lemmas combine quiet stretches with one failing transaction.

**Constants.** The constants of `rshim.h` are parameters, collected in
`Registers.Consts`:
- `LOCK_RETRY_CNT`;
- `RSH_CHANNEL_BASE`;
- `RSHIM_CHANNEL`;
- the widget registers and bits;
- `RSH_BOOT_FIFO_DATA`;
- `RSH_SCRATCHPAD`.

`rshim.h` is not part of this model. The constants defined in
`rshim_pcie_lf.c` itself are written out.

## Model

| member | source | states |
|---|---|---|
| Capability.CapRead | rshim_pcie_lf.c:58-74 | a capability read returns 0 or a negative code |
| Capability.CapWrite | rshim_pcie_lf.c:76-94 | a capability write returns 0 or a negative code |
| Capability.CapReadOrder | rshim_pcie_lf.c:58-74 | writes the offset with bit 0 set to 0x58 first. If that write fails: no read, and its code is returned. Otherwise: exactly one read of 0x5c, whose word is the result |
| Capability.CapWriteOrder | rshim_pcie_lf.c:76-94 | writes the value to 0x5c first, then the unchanged offset to 0x58. A failed first write suppresses the second. The code returned is that of the first failing write, or 0 |
| Capability.PciCapRead | rshim_pcie_lf.c:58-74 | the imperative accessor produces exactly the trace, code and value of `CapRead` |
| Capability.PciCapWrite | rshim_pcie_lf.c:76-94 | the imperative accessor produces exactly the trace and code of `CapWrite` |
| Words.Swap32Reverses | rshim_pcie_lf.c:171 | `ntohl`/`htonl` on a little-endian host reverses the four bytes of the word |
| Words.Swap32Involution | rshim_pcie_lf.c:205 | `ntohl(htonl(v)) == v`: the byte swap is its own inverse |
| Words.SplitCombine | rshim_pcie_lf.c:367-378 | combining the low and high words of the write split gives the 64-bit value back |
| Words.CombineSplit | rshim_pcie_lf.c:321-333 | splitting the combined read value gives back the low and high words read |
| Polling.PollAfter | rshim_pcie_lf.c:103-110 | defines the read-then-count loop over a probe and a mask. Its properties are the lemmas `PollAfterOutcome`, `PollAfterNeverClears`, `PollAfterExtends` and `PollAfterSameProbe` |
| Polling.PollBefore | rshim_pcie_lf.c:256-264 | defines the count-then-read loop. Its properties are the lemmas `PollBeforeOutcome`, `PollBeforeNeverSets` and `PollBeforeExtends` |
| Polling.PollAfterOutcome | rshim_pcie_lf.c:103-110 | every read-then-count loop, on every bus, stops at some read `j <= cnt`. All earlier reads saw the bit set. Read `j` then either failed (its code is returned), or was read `cnt + 1` (timeout whatever it saw), or saw the bit clear (success) |
| Polling.PollBeforeOutcome | rshim_pcie_lf.c:256-264 | every count-then-read loop stops after `j <= cnt` reads that saw the bit clear. It times out with no further read if `j == cnt`. Otherwise read `j` failed (its code is returned) or saw the bit set (success) |
| Polling.PollAfterNeverClears | rshim_pcie_lf.c:103-110 | a bit that never clears: exactly `cnt + 1` reads, then `-ETIMEDOUT` |
| Polling.PollBeforeNeverSets | rshim_pcie_lf.c:256-264 | a bit that is never set: exactly `cnt` reads, then `-ETIMEDOUT` |
| Polling.PollAfterExtends | rshim_pcie_lf.c:103-110 | the read-then-count loop always issues at least one transaction |
| Polling.PollBeforeExtends | rshim_pcie_lf.c:256-264 | the count-then-read loop only extends the trace. Entered with its bound used up (a bound of 0 from the start), it issues no read and returns `-ETIMEDOUT` on the unchanged trace |
| Polling.PollAfterSameProbe | rshim_pcie_lf.c:103-110 | the read-then-count loop depends only on the answers of its read: two probes that answer every history alike give the same trace and code |
| GatewayLock.GwAcquire | rshim_pcie_lf.c:97-118 | defines the acquire as the lock poll followed by the claim write. Its properties are the lemmas `GwAcquireOutcome`, `GwAcquireHeldForever` and `GwAcquireExtends`; `TrioCrGwLockAcquire` ties it to the C loop |
| GatewayLock.GwRelease | rshim_pcie_lf.c:120-128 | defines the release as one capability write of the release pattern to the lock register; `TrioCrGwLockRelease` ties it to the C |
| GatewayLock.GwAcquireOutcome | rshim_pcie_lf.c:97-118 | an acquire reads the lock at most `LOCK_RETRY_CNT + 1` times. It times out unless bit 31 reads clear within the first `LOCK_RETRY_CNT` reads. On success it ends with exactly one claim write of `0x80000000` to the lock register, whose result it returns |
| GatewayLock.GwAcquireHeldForever | rshim_pcie_lf.c:103-110 | a lock that never reads free: `LOCK_RETRY_CNT + 1` reads, no claim write, `-ETIMEDOUT` |
| GatewayLock.GwAcquireExtends | rshim_pcie_lf.c:97-118 | an acquire always issues a transaction |
| GatewayLock.TrioCrGwLockAcquire | rshim_pcie_lf.c:97-118 | the imperative retry loop produces exactly the trace and code of `GwAcquire` |
| GatewayLock.TrioCrGwLockRelease | rshim_pcie_lf.c:120-128 | the release is one capability write of 0 to the lock register |
| CrSpace.Window | rshim_pcie_lf.c:138-142 | the BlueField-2 window address lies in `[0x310000, 0x320000)` and keeps the low 16 bits of the address |
| CrSpace.GatewayRead | rshim_pcie_lf.c:144-178 | defines the BlueField-1 gateway read with the lock held. Its properties are the lemmas `GatewayReadShape` and `GatewayReadFailFast` |
| CrSpace.GatewayWrite | rshim_pcie_lf.c:196-229 | defines the BlueField-1 gateway write with the lock held. Its properties are the lemmas `GatewayWriteShape` and `GatewayWriteFailFast` |
| CrSpace.CrRead | rshim_pcie_lf.c:133-179 | defines the 4-byte read on both revisions. Its properties are the lemmas `CrReadDirect`, `CrReadGateway` and `CrReadExtends`; `CrspaceRshGwRead` ties it to the C |
| CrSpace.CrWrite | rshim_pcie_lf.c:181-230 | defines the 4-byte write on both revisions. Its properties are the lemmas `CrWriteDirect`, `CrWriteGateway` and `CrWriteExtends`; `CrspaceRshGwWrite` ties it to the C |
| CrSpace.CapReadShape | rshim_pcie_lf.c:58-74 | a capability read ends on a non-empty prefix of its two transactions. A failure is the last transaction issued and returns its negative code |
| CrSpace.CapWriteShape | rshim_pcie_lf.c:76-94 | the same for a capability write |
| CrSpace.CapReadFailFast | rshim_pcie_lf.c:58-74 | a capability read that fails ends on its select write, the one that failed. A capability read that succeeds issued only writes that succeeded |
| CrSpace.CapWriteFailFast | rshim_pcie_lf.c:76-94 | a capability write that fails ends on the write that failed, and every write before it succeeded. One that succeeds issued only writes that succeeded |
| CrSpace.GatewayReadFailFast | rshim_pcie_lf.c:144-178 | the gateway read returns at its first failing write. On failure the last transaction is a write, and every write before it succeeded. On success every write it issued succeeded |
| CrSpace.GatewayWriteFailFast | rshim_pcie_lf.c:196-229 | the same for the gateway write |
| CrSpace.CrReadDirect | rshim_pcie_lf.c:138-142 | BlueField-2 read: one capability read at the window address, with no gateway-lock traffic and no byte swap |
| CrSpace.CrWriteDirect | rshim_pcie_lf.c:186-190 | BlueField-2 write: one capability write of the unswapped value at the window address, with no gateway-lock traffic |
| CrSpace.GatewayReadShape | rshim_pcie_lf.c:144-178 | with the lock held, the read issues a prefix of: ADDR_LOWER, CTL=0x6, trigger, read DATA_LOWER, release. Success issues all of them, every write succeeded, and the byte-swapped data word is returned. A failure stops at the failing write and returns its negative code. Every write before it succeeded, and no release follows |
| CrSpace.GatewayWriteShape | rshim_pcie_lf.c:196-229 | with the lock held, the write issues a prefix of: DATA_LOWER=swap(v), ADDR_LOWER, CTL=0x2, trigger, release. Success issues all of them, and every write succeeded. A failure stops at the failing write and returns its negative code. Every write before it succeeded, and no release follows |
| CrSpace.CrReadGateway | rshim_pcie_lf.c:133-179 | BlueField-1 read: a failed acquire is returned with no gateway traffic. Otherwise the gateway read runs at `addr + RSH_CHANNEL_BASE(RSHIM_CHANNEL)`, with the sequence, value and fail-fast exits of `GatewayReadShape` |
| CrSpace.CrWriteGateway | rshim_pcie_lf.c:181-230 | BlueField-1 write: the same, at the channel-based address unless `(addr & 0xffff)` is the boot FIFO, with the sequence and fail-fast exits of `GatewayWriteShape` |
| CrSpace.CrReadExtends | rshim_pcie_lf.c:133-179 | every 4-byte read issues a transaction |
| CrSpace.CrWriteExtends | rshim_pcie_lf.c:181-230 | every 4-byte write issues a transaction |
| CrSpace.CrReadSameCrSpace | rshim_pcie_lf.c:133-179 | a 4-byte read depends only on the bus, the revision, `LOCK_RETRY_CNT`, the channel base, the channel and the boot FIFO offset |
| CrSpace.CrWriteSameCrSpace | rshim_pcie_lf.c:181-230 | the same for a 4-byte write |
| CrSpace.CrspaceRshGwRead | rshim_pcie_lf.c:133-179 | the imperative accessor produces exactly the trace, code and value of `CrRead` |
| CrSpace.CrspaceRshGwWrite | rshim_pcie_lf.c:181-230 | the imperative accessor produces exactly the trace and code of `CrWrite` |
| ScriptedBus.CapReadQuiet | rshim_pcie_lf.c:58-74 | on a quiet stretch a capability read is its two transactions and returns the word read |
| ScriptedBus.CapWriteQuiet | rshim_pcie_lf.c:76-94 | on a quiet stretch a capability write is its two transactions and returns 0 |
| ScriptedBus.AcquireQuiet | rshim_pcie_lf.c:97-118 | a lock that reads free at once is taken with one read and one claim write |
| ScriptedBus.GatewayReadQuiet | rshim_pcie_lf.c:144-178 | on a quiet stretch the gateway read issues its whole sequence and returns `ntohl` of the word read |
| ScriptedBus.GatewayWriteQuiet | rshim_pcie_lf.c:196-229 | on a quiet stretch the gateway write issues its whole sequence and returns 0 |
| ScriptedBus.CrReadQuiet | rshim_pcie_lf.c:133-179 | on a quiet stretch a 4-byte read is 2 transactions on BlueField-2 and 14 on BlueField-1. The word is returned as read on BlueField-2 and byte-swapped on BlueField-1 |
| ScriptedBus.CrWriteQuiet | rshim_pcie_lf.c:181-230 | on a quiet stretch a 4-byte write issues its success sequence and returns 0 |
| ScriptedBus.CrWriteFailsFirst | rshim_pcie_lf.c:186-190 | a BlueField-2 write whose staging write fails issues nothing more and returns that code |
| ByteAccess.PendingWait | rshim_pcie_lf.c:233-248 | defines the pending wait as the read-then-count loop on ACC_CTL. Its properties are the lemmas `PendingWaitOutcome`, `PendingWaitStuck` and `PendingWaitExtends`; `RshimByteAccPendingWait` ties it to the C |
| ByteAccess.InterlockAcquire | rshim_pcie_lf.c:251-267 | defines the interlock acquire as the count-then-read loop on ACC_INTERLOCK. Its properties are the lemmas `InterlockAcquireOutcome`, `InterlockNeverTaken` and `InterlockAcquireExtends`; `RshimByteAccLockAcquire` ties it to the C |
| ByteAccess.InterlockRelease | rshim_pcie_lf.c:270-274 | defines the interlock release; `RshimByteAccLockRelease` ties it to the C |
| ByteAccess.RunSteps | rshim_pcie_lf.c:299-334 | defines the `if (rc) goto exit` chain of a widget transfer: steps (4-byte write, 4-byte read, pending wait) run in order, and the first nonzero code ends the run. Its properties are the lemmas `RunStepsOutcome` and `RunStepsAppend` |
| ByteAccess.RunStepsOutcome | rshim_pcie_lf.c:299-334 | on every bus, a run of steps either succeeds after all its steps, each of which returned 0, or ends on its first failing step with that step's history and code, every earlier step having returned 0 |
| ByteAccess.RunStepsAppend | rshim_pcie_lf.c:344-387 | running two step lists one after the other is running their concatenation: the second list runs only when the first succeeded |
| ByteAccess.ReadTransfer | rshim_pcie_lf.c:299-334 | defines the read transfer. Its properties are the lemmas `ReadTransferSteps`, `ReadTransferFacts`, `ReadTransferHalves` and `WidgetScenarios.ReadTransferQuiet` |
| ByteAccess.ReadTransferSteps | rshim_pcie_lf.c:299-334 | on every bus, the read transfer's history and code are those of the steps ACC_ADDR write, ACC_CTL write of the read control word, wait, RDAT read, wait, RDAT read, cut at the first failure. A failed step ends the transfer with that step's own code, after every earlier step returned 0 |
| ByteAccess.ByteAccRead | rshim_pcie_lf.c:280-342 | defines the widget read. Its properties are the lemmas `ByteAccReadBlueField1`, `ByteAccReadReleases`, `ByteAccReadViaTransfer`, `ByteAccReadHalves` and `ByteAccReadIgnoresInterlock`; `RshimByteAccRead` ties it to the C |
| ByteAccess.WriteTransfer | rshim_pcie_lf.c:361-380 | defines the write transfer. Its properties are the lemmas `WriteTransferSteps`, `WriteTransferExtends` and `WidgetScenarios.WriteTransferQuiet` |
| ByteAccess.WriteTransferSteps | rshim_pcie_lf.c:361-380 | on every bus, the write transfer is the steps ACC_CTL write of the size, WDAT write of the low word, wait, WDAT write of the high word, cut at the first failure. A failed step ends the transfer with its own code, so the high word is written only after the wait cleared |
| ByteAccess.ByteAccWrite | rshim_pcie_lf.c:344-387 | defines the widget write. Its properties are the lemmas `ByteAccWriteExits`, `ByteAccWriteBlueField1` and `ByteAccWriteIgnoresInterlock`; `RshimByteAccWrite` ties it to the C |
| ByteAccess.PendingWaitOutcome | rshim_pcie_lf.c:233-248 | the pending wait reads ACC_CTL at most `LOCK_RETRY_CNT + 1` times, with the same exits as the gateway lock |
| ByteAccess.PendingWaitStuck | rshim_pcie_lf.c:238-245 | a pending bit that never clears: `LOCK_RETRY_CNT + 1` reads, then `-ETIMEDOUT` |
| ByteAccess.InterlockAcquireOutcome | rshim_pcie_lf.c:251-267 | the interlock acquire reads at most `LOCK_RETRY_CNT` times and succeeds only on a read that sees bit 0 set (the opposite polarity) |
| ByteAccess.InterlockNeverTaken | rshim_pcie_lf.c:256-264 | an interlock that never reads set: `LOCK_RETRY_CNT` reads, then `-ETIMEDOUT` |
| ByteAccess.PendingWaitExtends | rshim_pcie_lf.c:233-248 | a pending wait always issues a transaction |
| ByteAccess.InterlockAcquireExtends | rshim_pcie_lf.c:251-267 | the interlock acquire only extends the trace. With `LOCK_RETRY_CNT == 0` it issues no read and returns `-ETIMEDOUT` |
| ByteAccess.ReadTransferFacts | rshim_pcie_lf.c:299-334 | the read transfer issues transactions and delivers a value exactly when it returns 0 |
| ByteAccess.ReadTransferHalves | rshim_pcie_lf.c:316-334 | on every bus, a read transfer that succeeds delivers a value built from two RDAT reads. Its low word is the word of the first read, which starts only after a pending wait has cleared. Its high word is the word of the second, which starts only after the pending wait following the first has cleared, and which ends the transfer |
| ByteAccess.ByteAccReadViaTransfer | rshim_pcie_lf.c:280-342 | a value delivered by the widget read, on either revision, is the value of a successful read transfer run within the call |
| ByteAccess.ByteAccReadHalves | rshim_pcie_lf.c:280-342 | on either revision and every bus, a delivered value was read low word first and then high word, by two RDAT reads within the call, each preceded by a pending wait that cleared |
| ByteAccess.WriteTransferExtends | rshim_pcie_lf.c:361-380 | the write transfer issues transactions |
| ByteAccess.ByteAccReadBlueField1 | rshim_pcie_lf.c:280-342 | on BlueField-1 and every bus, the widget read is the steps wait, then the read transfer's six, cut at the first failure: a failed step ends the call with its own code. A value is delivered exactly when it returns 0 |
| ByteAccess.ByteAccWriteBlueField1 | rshim_pcie_lf.c:344-387 | on BlueField-1 and every bus, the widget write is the steps ACC_ADDR write, then the write transfer's four, cut at the first failure: a failed step ends the call with its own code |
| ByteAccess.ByteAccReadReleases | rshim_pcie_lf.c:288-341 | BlueField-2: a failed pending wait or interlock acquire is returned at once, with its code, no value and no release. Once both succeed, the transfer's steps run up to their first failure, then the interlock release follows and its code is returned. A value is delivered only if the transfer succeeded |
| ByteAccess.ByteAccReadIgnoresInterlock | rshim_pcie_lf.c:280-342 | on BlueField-1 and every bus, the widget read issues the same transactions and returns the same code and value wherever ACC_INTERLOCK lies, so it makes no use of the interlock |
| ByteAccess.ByteAccWriteIgnoresInterlock | rshim_pcie_lf.c:344-387 | on BlueField-1 and every bus the widget write likewise makes no use of the interlock |
| ByteAccess.ByteAccWriteExits | rshim_pcie_lf.c:344-387 | BlueField-2: a failed interlock acquire is returned as is. A failed ACC_ADDR write is returned with no release. After a successful ACC_ADDR write, the write transfer's steps run up to their first failure, then the release follows and its code is returned |
| ByteAccess.RshimByteAccPendingWait | rshim_pcie_lf.c:233-248 | the imperative loop produces exactly the trace and code of `PendingWait` |
| ByteAccess.RshimByteAccLockAcquire | rshim_pcie_lf.c:251-267 | the imperative loop produces exactly the trace and code of `InterlockAcquire` |
| ByteAccess.RshimByteAccLockRelease | rshim_pcie_lf.c:270-274 | the release is one 4-byte write of 0 to ACC_INTERLOCK |
| ByteAccess.RshimByteAccRead | rshim_pcie_lf.c:280-342 | the imperative widget read, with its `goto exit_read`, produces exactly the trace, code and value of `ByteAccRead` |
| ByteAccess.RshimByteAccWrite | rshim_pcie_lf.c:344-387 | the imperative widget write, with its early return and `goto exit_write`, produces exactly the trace and code of `ByteAccWrite` |
| WidgetScenarios.PendingWaitQuiet | rshim_pcie_lf.c:233-248 | a pending bit that reads clear at once costs one ACC_CTL read |
| WidgetScenarios.InterlockAcquireQuiet | rshim_pcie_lf.c:251-267 | an interlock that reads set at once costs one ACC_INTERLOCK read |
| WidgetScenarios.ReadTransferQuiet | rshim_pcie_lf.c:299-334 | on a quiet bus the transfer is exactly: ACC_ADDR, ACC_CTL=read trigger plus 4-byte size, wait, RDAT, wait, RDAT, and it returns 0. Every read answers the same word, so the value is that word in both halves; which read gives which half is stated by `ByteAccess.ReadTransferHalves` |
| WidgetScenarios.WriteTransferQuiet | rshim_pcie_lf.c:361-380 | on a quiet bus the transfer is: ACC_CTL=size, WDAT=low, wait, WDAT=high. There is a pending wait only between the two data words |
| WidgetScenarios.IdealReadBlueField1 | rshim_pcie_lf.c:280-342 | the exact BlueField-1 widget read on a quiet bus. There is no interlock traffic; `ByteAccess.ByteAccReadIgnoresInterlock` states this for every bus |
| WidgetScenarios.IdealReadBlueField2 | rshim_pcie_lf.c:280-342 | the exact BlueField-2 widget read on a quiet bus: wait, interlock, transfer, then the release as the last access |
| WidgetScenarios.IdealWriteBlueField1 | rshim_pcie_lf.c:344-387 | the exact BlueField-1 widget write on a quiet bus: ACC_ADDR, then the transfer. There is no interlock traffic; `ByteAccess.ByteAccWriteIgnoresInterlock` states this for every bus |
| WidgetScenarios.IdealWriteBlueField2 | rshim_pcie_lf.c:344-387 | the exact BlueField-2 widget write on a quiet bus: interlock, ACC_ADDR, transfer, then the release |
| WidgetScenarios.ReadFaultMasked | rshim_pcie_lf.c:299-341 | BlueField-2: a failure of the ACC_ADDR write is followed by a release that succeeds. The read returns 0 and leaves the result unwritten |
| WidgetScenarios.ReadFaultMaskedExample | rshim_pcie_lf.c:299-341 | the same on a concrete scripted bus whose fifth transaction fails with `-ETIMEDOUT` |
| WidgetScenarios.WriteAddressFaultKeepsInterlock | rshim_pcie_lf.c:356-359 | BlueField-2: a failed ACC_ADDR write returns its error at once and no interlock release follows |
| WidgetScenarios.WriteFaultMasked | rshim_pcie_lf.c:361-386 | BlueField-2: a failure of the ACC_CTL write is followed by a release that succeeds, and the write returns 0 |
| Backend.FifoWrite | rshim_pcie_lf.c:396-412 | defines the boot FIFO writer. Its properties are the lemmas `FifoWriteOrder`, `FifoWriteQuiet` and `FifoWriteIgnoresWidget`; `RshimBootFifoWrite` ties it to the C |
| Backend.BackendRead | rshim_pcie_lf.c:415-430 | defines the backend read. Its properties are the lemmas `NoRshim` and `ReadResetsCount`; `RshimPcie.Read` ties it to the C |
| Backend.Route | rshim_pcie_lf.c:437-463 | defines the choice between the FIFO writer and the widget write. Its property is the lemma `RouteChoice` |
| Backend.BackendWrite | rshim_pcie_lf.c:432-467 | defines the backend write. Its properties are the lemmas `NoRshim`, `WriteThrottle` and `RouteChoice`; `RshimPcie.Write` ties it to the C |
| Backend.Throttle | rshim_pcie_lf.c:453-458 | defines one step of the BlueField-1 `write_count` throttle. Its properties are the lemmas `ThrottleBounded`, `DrainPeriod` and `DrainsAt` |
| Backend.NoRshim | rshim_pcie_lf.c:422-423 | without an rshim both entry points return `-ENODEV`, issue no bus traffic and keep `write_count` |
| Backend.ReadResetsCount | rshim_pcie_lf.c:415-430 | a read clears `write_count` and is a widget read at `RSH_CHANNEL_BASE(chan) + addr` |
| Backend.WriteThrottle | rshim_pcie_lf.c:441-459 | on BlueField-1 `write_count` moves on by the throttle (7 becomes 1, otherwise +1), whatever the bus answers. A barrier and a drain read of `RSH_SCRATCHPAD` on the same channel come first exactly when the count is 7. On BlueField-2 the count is untouched |
| Backend.ThrottleBounded | rshim_pcie_lf.c:453-458 | the throttle keeps `write_count` within 1..7 once it is within 0..7 |
| Backend.DrainPeriod | rshim_pcie_lf.c:441-459 | from a cleared counter, after the `n`-th write the count is `(n - 1) % 7 + 1` |
| Backend.DrainsAt | rshim_pcie_lf.c:453-456 | the drain read happens before write `n` exactly when `n > 1` and `(n - 1) % 7 == 0`, i.e. writes 8, 15, 22 and so on |
| Backend.RouteChoice | rshim_pcie_lf.c:437-464 | a write to `RSH_BOOT_FIFO_DATA` goes to the FIFO writer, and every other write goes through the widget. Both use the channel address |
| Backend.FifoWriteOrder | rshim_pcie_lf.c:396-412 | the FIFO writer writes the low word first. A failure there suppresses the high write. Otherwise the high write decides the result |
| Backend.FifoWriteIgnoresWidget | rshim_pcie_lf.c:396-412 | on every bus, the FIFO writer issues the same transactions and returns the same code wherever the widget's registers, pending bit and control words lie: it uses no pending wait, no widget register and no interlock |
| Backend.FifoWriteQuiet | rshim_pcie_lf.c:396-412 | on a quiet bus the FIFO writer issues exactly two 4-byte writes to the same address, low then high. There is no pending wait, no widget register and no interlock |
| Backend.RshimBootFifoWrite | rshim_pcie_lf.c:396-412 | the imperative FIFO writer produces exactly the trace and code of `FifoWrite` |
| Backend.RshimPcie.constructor | rshim_pcie_lf.c:506-514 | a new backend has the rshim present and `write_count` 0 |
| Backend.RshimPcie.Read | rshim_pcie_lf.c:415-430 | the imperative read produces exactly the trace, code, result and new `write_count` of `BackendRead`, and keeps `write_count <= 7` |
| Backend.RshimPcie.Write | rshim_pcie_lf.c:432-467 | the imperative write, including its nested drain read, produces exactly the trace, code and new `write_count` of `BackendWrite`, and keeps `write_count <= 7` |

## Left out

- Probe and lifecycle (`rshim_pcie_probe`, `rshim_pcie_lf_init`, `rshim_pcie_delete`, lines 469-592) are left out, apart from the two fields the probe initialises. These functions are PCI bus scanning, allocation, registry calls and mutex set-up: foreign glue and I/O.
- libpci's `pci_write_long`/`pci_read_long` are not modelled inside. They are abstract bus operations whose answers come from the environment.
- `__sync_synchronize` is a `Barrier` entry in the trace. Memory ordering and concurrency are not modelled.
- The constants of `rshim.h` are parameters, not concrete values. `INTERLOCK_TAKEN` (bit 0 of the interlock) is the one bit the source tests by literal.
- `htonl`/`ntohl` are modelled for a little-endian host, as the fixed byte swap `Swap32`.
- Cross-process and hardware mutual exclusion, and the hardware's register semantics, are not modelled. Read values are whatever the environment returns.
- The retry counters of the gateway lock and of the pending wait are `uint32_t` (lines 99 and 235); that of the interlock acquire is `int` (line 253). None of them is incremented past `LOCK_RETRY_CNT + 1`, so none wraps or overflows for any `LOCK_RETRY_CNT` below `INT_MAX`; `LOCK_RETRY_CNT` is modelled as an unbounded natural number.
- Capability.CapRead: when the select write fails, `pci_cap_read` leaves `*result` unwritten. The model reports 0 there; callers return before using it.
- CrSpace.CrRead: when a step before the data read fails, the C leaves `*result` as it was and the model reports 0. When only the BlueField-1 release fails, both deliver the byte-swapped word read.
- Backend.FifoWriteOrder: does not state that the FIFO writer's code is non-positive. The 4-byte write layer only proves that it extends the trace.
- An address is a 32-bit word (`bv32`), and `RSH_CHANNEL_BASE(chan) + addr` is a 32-bit wrapping addition.
- The code does not release what it acquired on every exit, and the model keeps that behaviour rather than an idealised one:
  - The gateway lock is not released when a step after the acquire fails.
  - On BlueField-2 a failed `ACC_ADDR` write in the widget write skips the interlock release.
  - On BlueField-2 the release's return code replaces any earlier error.
- The widget write has no pending wait between the control write and the low data word, and neither has the model.
