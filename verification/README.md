# Verified model of the in-QEMU syscall monitor

The system watches the system calls of a Unikraft guest from inside QEMU. A trap byte (0xcc) is planted at the
guest's syscall entry and, optionally, at the instruction that returns to the application. The patched
`kvm_handle_debug()` claims the trap, logs it, puts the original byte back, single-steps the vCPU once and plants
the trap again. Because the boot ROM overwrites the kernel's text during boot, the traps are armed by a bounded
polling timer and by a hook at the end of the fw_cfg DMA request that completes the kernel image. Calls are held
in a 64-entry table between entry and return and written as one JSON line each; a script follows the growing file.
An older path does the same through gdb.

The main results, each for all guests, inputs and interleavings:

- **Transparency** (`Transparency.SoloTransparent`, `Transparency.TransparentIff`): erase the handler steps of a
  run, read planted bytes as the bytes they replaced, and what is left is the run of the machine without a monitor.
  With one vCPU this always holds, with more exactly as long as stray traps delivered to the guest change nothing.
- **Exact capture** (`Capture.CaptureFromBootSync`, `Capture.CaptureFromPolling`, `ManyCpus.FaithfulIff`): the
  log is exactly the sequence of arrivals at the hooks from the deciding arm onward, and empty if there is no such
  arm; with several vCPUs, for each of them, exactly if none runs a hook's instruction while another steps over it.
- **Shared list** (`Machine.RunKeepsInv`, `Capture.LiveAfterArm`): the invariant over breakpoint list, trap bytes
  and vCPU states, for any number of vCPUs.
- **Pairing** (`Pairing.PairedIffFair`, `Pairing.ProperIsPaired`, `Pairing.CompletionLog`, `Pending.Conservation`,
  `Pending.OrderIff`), and the slot array that implements it (`PendingTable.Slots`).
- **End to end** (`EndToEnd.EntryOnlyFile`, `EndToEnd.FileIsFaithful`, `EndToEnd.FileIsComplete`): what is in the
  file, with and without the return hook, in terms of what the unmonitored guest does.
- **Load detection** (`FwCfg.SplitIndependent`), **stream readers** (`Tail.TailLines`, `Hmp.ReplyRecovered`), and
  the **gdb path** (`GdbPath.Session`).

`dafny verify dfyconfig.toml` checks the whole project.

## How the model is built

`Kvm` and `Monitor` specify the breakpoint primitives and the monitor as functions on values; `VmiMonitor.Vmi` is
the same code on fields and a RAM array, every method proved equal to its specification. `FwCfg` does the same for
the DMA device, `Pending` and `PendingTable` for the table. `Machine` puts any number of vCPUs, the monitor and
the device together as a state machine whose events are one guest instruction (or the trap that replaces it), one
debug exit handled, one timer tick, the VM starting to run, and one DMA request. Events may come in any order.
The guest is an arbitrary function from registers and RAM to registers and RAM.

Assumptions about what is outside the repository, all visible as predicates:

- `CodeOnly`: the guest writes no hook byte, and an instruction depends on no hook byte except the one it starts
  at. One single-step runs one instruction (docs/phase6_inline_qemu_design.md:560-563).
- `CleanRun`: a DMA request may overwrite a hook with anything but 0xcc. `Kvm.OverwriteSeen` shows that writing
  0xcc over a registered trap is the whole failing family.
- `Quiet`: after the load, debug accesses of the debug-exit handlers succeed and DMA no longer touches the hooks
  (docs/phase7_boot_sync_investigation.md:197-206). Without it a failed removal costs a duplicate line
  (`SharedList.UnmappedHitRepeats`) and a failed re-insertion leaves the hook lifted for good
  (`SharedList.LiftedForGood`); `ManyCpus.Ledger` accounts for both.
- One `mapped` flag per handler call: both hooks are on one page, so translation holds for both or for neither
  (vmi-syscall-monitor.c:169-175).
- A read that goes past the end of a fw_cfg entry fills the rest with zeros, as QEMU's device does; the excerpt of
  the copy loop in the repository shows only the part before that.
- gdb reads the general registers as signed 64-bit integers.

## What the proofs found

- A hit before the kernel is loaded turns all arming off, and the load then leaves the monitor blind for good
  (`Capture.EarlyHitBlinds`; `Capture.EarlyHitHappens` is such a run). Capture after the load needs that no hit came
  before it.
- With more than one vCPU, a trap that is handled after another vCPU lifted it is delivered to the guest as an
  exception of its own. The guest can tell if and only if that delivery changes registers or memory
  (`Transparency.TransparentIff`; `ManyCpus.SecondVcpuGetsException` is such a run).
- A vCPU can pass a hook unseen while another one steps over it (`ManyCpus.SecondVcpuUnseen`), and once armed that
  is the only way an arrival is missed (`ManyCpus.ExactAfterArm`). `ManyCpus.FaithfulIff` puts the two together. The build in the repository has one vCPU
  (`CONFIG_UKPLAT_LCPU_MAXCOUNT=1`).
- A second user of a hook address, such as a debugger's breakpoint there, makes the step-over fail and stops the
  VM: `SharedList.PassIffSoleUser`. The comment in the patch (0001-kvm.c.diff:59-63) reads as if this case were
  like stock QEMU; here the first hit is claimed and the re-trap is handed to the debugger mid-step.
- The completion test looks at the offset only. A skipped or failed piece of the image followed by a successful
  read of the rest still counts as loaded (`FwCfg.HoleStillFires`; `FwCfg.WholeIff` says when that matters).
- A key that is entered again while still pending gives up the earlier call as "superseded". README.md of the
  system does not mention the rule; the model follows the code. For every trace, pairing is right exactly when no
  call comes back under a key that is held for another one (`Pairing.PairedIffFair`), and a key is held from its
  entry until something returns under it or 64 younger keys are in use (`Pairing.PendsIffHeld`).
- The monitor cuts the syscall number to a C `int` before the lookup and logs unsigned registers; the gdb script
  looks up the whole number and logs signed ones. `Naming.PathsAgreeIff` says exactly when the events agree.
- The gdb script tests its budget after writing, so a budget below one still lets one event through.
- Removing escape sequences once leaves a sequence behind whenever one is nested in the opening of another
  (`Hmp.CleanNotIdempotent`; `Hmp.OnceIff` is the exact condition), so reply recovery is about escape-free text.

## Model

| member | source | states |
|---|---|---|
| `Kvm.InsertEffect` | docs/phase6_inline_qemu_design.md:163-187 | an unregistered reachable address gets 0xcc and its byte saved with one user, a registered one a further user and nothing in memory; an unreachable one changes nothing |
| `Kvm.RemoveEffect` | docs/phase6_inline_qemu_design.md:176-187 | removing a sole user's breakpoint puts back the byte the guest should see (the saved one only while the trap is still there) and deregisters; an unreachable address changes nothing |
| `Kvm.RemoveShared` | docs/phase6_inline_qemu_design.md:183-187 | with several users a removal takes one of them off and leaves memory alone |
| `Kvm.RemoveUndoesInsert` | docs/phase6_inline_qemu_design.md:163-187 | removing undoes inserting, for the first user and for any later one: memory and list are as before |
| `Kvm.OverwriteSeen` | docs/phase7_boot_sync_investigation.md:208-217 | a byte written over a hook from outside is what the guest sees, if and only if it is not 0xcc over a registered trap with a different saved byte |
| `Monitor.Setup` | qemu_patch/target/i386/kvm/vmi-syscall-monitor.c:372-430 | the monitor is on exactly when a non-zero entry address is given and the log opens; the hooks are then the entry and, if one is given, is not zero and differs, the return address |
| `Monitor.ArmAddrEffect` | qemu_patch/target/i386/kvm/vmi-syscall-monitor.c:117-167 | whether the old trap was live, clobbered or absent, an arm leaves a fresh trap that saves the byte the guest should see, or fails and changes nothing |
| `Monitor.ArmOnceEffect` | qemu_patch/target/i386/kvm/vmi-syscall-monitor.c:169-186 | arming is all or nothing over both hooks, never changes the guest's view of memory, and touches no other address |
| `Monitor.ArmOnceFails` | qemu_patch/target/i386/kvm/vmi-syscall-monitor.c:176-186 | arming succeeds exactly when every hook can be reached; when the return hook cannot, the entry hook is taken out again with the right byte in place |
| `Monitor.BootSyncOutcome` | qemu_patch/target/i386/kvm/vmi-syscall-monitor.c:309-345 | boot-sync counts as done exactly when it armed, and only then stops the timer |
| `Monitor.HitOutcome` | qemu_patch/target/i386/kvm/vmi-syscall-monitor.c:612-658 | a hit lifts the trap and puts this vCPU alone into STEPPING, or leaves list and vCPU as they were; the first one stops the timer |
| `Monitor.PassRestores` | qemu_patch/target/i386/kvm/vmi-syscall-monitor.c:612-694 | a whole pass leaves memory and list as they were and the vCPU in NORMAL with single-step off |
| `Monitor.DisabledIsStock` | qemu_patch/0001-kvm.c.diff:29-75 | with the monitor off, on every exit: a debugger's single-step, a matching hardware breakpoint and a trap at a registered address go to the debugger, everything else to the guest, and nothing changes |
| `Transparency.DisabledInert` | qemu_patch/target/i386/kvm/vmi-syscall-monitor.h:2-9 | with the monitor off, whole runs with any number of vCPUs keep the list empty, log and claim nothing, and leave RAM and registers equal to the unmonitored machine's |
| `Monitor.ClaimedExactly` | qemu_patch/0001-kvm.c.diff:31-75 | the exits the monitor claims, if and only if; every other exit leaves the monitor unchanged and goes to the debugger if and only if it is a single-step asked for, a matching hardware breakpoint or a trap at a registered address, else to the guest |
| `Capture.ArmingOver` | docs/phase7_boot_sync_investigation.md:497-504 | once a hit was seen or boot-sync succeeded, at every later point of every run a tick, a state change or another load writes no hook and leaves the list alone |
| `Monitor.GivesUp` | qemu_patch/target/i386/kvm/vmi-syscall-monitor.c:207-279 | undisturbed polling goes on to exactly 100 attempts, whether they succeed or fail, and stops |
| `Monitor.FreshSequence` | qemu_patch/target/i386/kvm/vmi-syscall-monitor.c:357-370 | whenever the VM starts to run with no timer going, a new sequence of 100 attempts begins, the first at once |
| `Monitor.NoSecondSequence` | qemu_patch/target/i386/kvm/vmi-syscall-monitor.c:357-363 | a sequence under way is left alone |
| `VmiMonitor.Vmi.InsertBreakpoint` | docs/phase6_inline_qemu_design.md:163-187 | save the byte and write 0xcc, or only raise the use count when already registered |
| `VmiMonitor.Vmi.RemoveBreakpoint` | docs/phase6_inline_qemu_design.md:176-187 | lower the count, or deregister, restoring only a byte that is still 0xcc |
| `VmiMonitor.Vmi.ArmAddr` | qemu_patch/target/i386/kvm/vmi-syscall-monitor.c:136-167 | refines the arm specification, including the undo after a failed read-back |
| `VmiMonitor.Vmi.ArmOnce` | qemu_patch/target/i386/kvm/vmi-syscall-monitor.c:176-186 | refines the two-hook arm, including taking the entry out when the return hook fails |
| `VmiMonitor.Vmi.TryArm` | qemu_patch/target/i386/kvm/vmi-syscall-monitor.c:207-279 | refines one poll tick |
| `VmiMonitor.Vmi.StateChange` | qemu_patch/target/i386/kvm/vmi-syscall-monitor.c:357-370 | refines the start of an arm sequence when the VM runs |
| `VmiMonitor.Vmi.KernelLoaded` | qemu_patch/target/i386/kvm/vmi-syscall-monitor.c:309-345 | refines boot-sync: arm once, and on success set the flag and cancel the timer |
| `VmiMonitor.Vmi.BreakpointHit` | qemu_patch/target/i386/kvm/vmi-syscall-monitor.c:612-658 | refines the first half of a pass, including a removal that fails |
| `VmiMonitor.Vmi.StepComplete` | qemu_patch/target/i386/kvm/vmi-syscall-monitor.c:660-694 | refines the second half of a pass |
| `VmiMonitor.Vmi.HandleDebug` | qemu_patch/0001-kvm.c.diff:29-75 | every exit ends in exactly one of claimed, EXCP_DEBUG and reinjected, each if and only if, told from the fields before the call; an exit that is not claimed changes nothing |
| `FwCfg.TransferAt` | docs/phase7_boot_sync_investigation.md:152-163 | what each RAM byte is after a request: the entry's byte or a zero behind its end where the request lands, else the old one, whichever access is refused |
| `FwCfg.OneChunk` | docs/phase7_boot_sync_investigation.md:152-163 | the first pass of the copy loop followed by a request for the rest is the whole request |
| `FwCfg.Dma.CopyChunk` | docs/phase7_boot_sync_investigation.md:152-163 | one pass of the copy loop on the RAM array, error included |
| `FwCfg.Dma.Copy` | docs/phase7_boot_sync_investigation.md:152-163 | the loop computes the request's whole effect on RAM, offset and error flag, zeros past the end of the entry included |
| `FwCfg.Dma.Serve` | qemu_patch/0003-fw_cfg.c.diff:36-50 | select, copy and completion test: new RAM, new device and whether the hook fires |
| `FwCfg.SelectedLoad` | docs/phase7_boot_sync_investigation.md:133-171 | wherever the device stands, a request that selects an entry and reads all of it puts exactly that entry in place, and fires the hook if and only if it is entry 0x11 |
| `FwCfg.FiresAgain` | qemu_patch/0003-fw_cfg.c.diff:46-50 | past the end of the kernel entry every read that is not refused fires again, and puts only zeros into RAM |
| `FwCfg.LoadContents` | docs/phase7_boot_sync_investigation.md:152-171 | after any sequence of reads, refused accesses and skips, RAM holds an image byte exactly where a successful access covered it, zeros as far as a read went past the end, and the old bytes elsewhere |
| `FwCfg.FiresWhenPassed` | qemu_patch/0003-fw_cfg.c.diff:46-50 | when a request fires the hook, if and only if, for every such sequence |
| `FwCfg.SplitIndependent` | qemu_patch/0003-fw_cfg.c.diff:36-50 | however reads split the image, the hook fires in the request that writes the last byte and in later ones, never before; then the whole image is in RAM, with nothing else changed but the zeros a read asked for past the end |
| `FwCfg.BootSplitIndependent` | qemu_patch/0003-fw_cfg.c.diff:36-50 | the same for a boot ROM whose first request selects the kernel entry, from any state of the device |
| `FwCfg.HoleStillFires` | qemu_patch/0003-fw_cfg.c.diff:46-50 | for every image longer than one byte, a skipped or failed first byte does not stop the hook from firing |
| `FwCfg.WholeIff` | qemu_patch/0003-fw_cfg.c.diff:46-50 | once the whole image has been passed, it is whole in RAM if and only if every place no successful access covered held its byte already |
| `Machine.StepInv` | qemu_patch/0001-kvm.c.diff:31-75 | every step of every vCPU, timer and device keeps the shared-list invariant |
| `Machine.RunKeepsInv` | qemu_patch/0001-kvm.c.diff:31-75 | the invariant over all runs and any number of vCPUs: STEPPING iff our single-step is armed, no hook stepped over twice, a stepped hook is off the list, every trap byte at a hook is registered with one user |
| `SharedList.LiveForever` | docs/phase6_inline_qemu_design.md:513-523 | once live, a hook is registered with count one and byte 0xcc if and only if no vCPU is stepping over it, forever |
| `Capture.LiveAfterArm` | docs/phase6_inline_qemu_design.md:513-523 | the same from power-on, for any number of vCPUs, from the first successful arm after the load on |
| `SharedList.ArmedIsLive` | README.md:451-455 | a successful arm before any hit makes both hooks live |
| `SharedList.NoTrapWhileStepping` | qemu_patch/0001-kvm.c.diff:54-71 | a trap at a hook on a vCPU that is mid-step is unreachable, and the VM is never handed to a debugger, in every run |
| `SharedList.PassIffSoleUser` | qemu_patch/0001-kvm.c.diff:54-71 | a pass completes if and only if the monitor is the hook's only user; otherwise the vCPU re-traps on the same instruction and the VM stops |
| `SharedList.UnmappedHitRepeats` | qemu_patch/target/i386/kvm/vmi-syscall-monitor.c:645-653 | a hit whose removal fails changes nothing but the log: the vCPU traps there again and one duplicate line is written |
| `SharedList.UnmappedStepLifts` | qemu_patch/target/i386/kvm/vmi-syscall-monitor.c:668-679 | a re-insertion that fails lets the vCPU go on with the hook lifted |
| `SharedList.LiftedForGood` | qemu_patch/target/i386/kvm/vmi-syscall-monitor.c:668-679 | and then no arrival at that hook is logged again, in every run that follows |
| `Transparency.InstrSim` | docs/phase6_inline_qemu_design.md:559-566 | an instruction does the same on patched RAM as on the RAM the guest should see |
| `Transparency.CopySim` | docs/phase7_boot_sync_investigation.md:208-217 | a load that overwrites planted traps leaves the same bytes visible as on the bare machine |
| `Transparency.StraySim` | qemu_patch/0001-kvm.c.diff:52-74 | a trap whose breakpoint is gone is delivered to the guest, and the machines still agree if and only if the delivery changes nothing |
| `Transparency.StepSim` | qemu_patch/0001-kvm.c.diff:31-75 | one step of the simulation, for every event, as an if-and-only-if |
| `Transparency.TransparentIff` | qemu_patch/0001-kvm.c.diff:31-75 | any number of vCPUs: registers, device and viewed memory equal the unmonitored run's at every point if and only if every stray trap delivered changed nothing |
| `Transparency.Transparent` | qemu_patch/0001-kvm.c.diff:31-75 | in particular as long as no stray trap was delivered |
| `Transparency.NoStaleRestore` | docs/phase7_boot_sync_investigation.md:197-217 | for any number of vCPUs, at every point of every run, stray traps included: the byte at a hook, or the byte saved for it, is the byte the bare machine has there, never one from before the load |
| `Transparency.SoloRun` | qemu_patch/0001-kvm.c.diff:52-72 | with one vCPU a reported trap is still planted when its handler runs |
| `Transparency.SoloTransparent` | docs/phase6_inline_qemu_design.md:513-519 | with one vCPU every run is transparent with no proviso |
| `Capture.LiveStep` | qemu_patch/0001-kvm.c.diff:52-71 | one live step keeps log = arrivals + the one hit whose instruction is still to be executed |
| `Capture.CaptureFrom` | qemu_patch/0001-kvm.c.diff:52-71 | from the moment the hooks are live, logged hits equal arrivals: none missed, doubled or reordered, registers included |
| `Capture.NoRetrapBeforeExecution` | qemu_patch/0001-kvm.c.diff:41-44 | hits run at most one ahead of executed hook instructions, so no hook traps again before its instruction ran |
| `Capture.FirstHitIffLogged` | qemu_patch/target/i386/kvm/vmi-syscall-monitor.c:627-637 | the first-hit flag is set if and only if something was logged |
| `Capture.CaptureFromBootSync` | docs/phase7_boot_sync_investigation.md:258-296 | when boot-sync succeeds, the log is exactly the arrivals after the load, whatever polling did before |
| `Capture.SilentUntilRearm` | docs/phase7_boot_sync_investigation.md:208-217 | after a load that wiped the traps, nothing is logged until the next successful arm |
| `Capture.CaptureFromPolling` | README.md:285-290 | the log is exactly the arrivals after the first successful arm that follows the load, and empty if there is none |
| `Capture.EarlyHitBlinds` | qemu_patch/target/i386/kvm/vmi-syscall-monitor.c:309-315 | after a hit that came before the load, nothing is ever logged again |
| `Capture.EarlyHitHappens` | qemu_patch/target/i386/kvm/vmi-syscall-monitor.c:309-315 | for every guest that runs into an armed hook before a load that overwrites the hooks: the log ends with that one hit |
| `Accounting.ExitsBalance` | README.md:318-322 | in every run, whatever the handlers can reach: claimed exits = 2 x completed passes + vCPUs stepping + hits logged twice, and logged hits = passes + vCPUs stepping + hits logged twice; so without the last term if and only if there are none |
| `Accounting.MappedBalance` | README.md:318-322 | in particular when memory is mapped at every handler call |
| `Accounting.FourExitsPerSyscall` | README.md:503-505 | with the return hook on and nobody mid-step, n hits at each hook cost 4n exits, less one for each that is logged twice; exactly 4n with memory mapped |
| `ManyCpus.Ledger` | qemu_patch/0001-kvm.c.diff:52-71 | conservation per vCPU in every run, stray traps and unmapped memory included: begun + logged + slipped through = executed at the hooks + still to be executed + logged twice |
| `ManyCpus.ExactIff` | qemu_patch/0001-kvm.c.diff:52-71 | any number of vCPUs, from any point on, stray traps included: a vCPU that logged nothing twice has in its log what it executed at the hooks, in order, if and only if none of that slipped through |
| `ManyCpus.SlipIffOverlap` | docs/phase6_inline_qemu_design.md:520-523 | while the hooks are live an arrival slips through if and only if another vCPU is stepping over that hook |
| `ManyCpus.ExactAfterArm` | docs/phase6_inline_qemu_design.md:520-523 | from a successful arm on, stray traps included: every vCPU's log is exact if and only if no vCPU executes a hook's instruction while another is stepping over it |
| `ManyCpus.ExecutedIsBare` | docs/phase6_inline_qemu_design.md:513-523 | while the machines agree, what the guest executes at the hooks is what the unmonitored guest executes there |
| `ManyCpus.FaithfulIff` | docs/phase6_inline_qemu_design.md:513-523 | from a successful arm on: the guest never sees a difference and every vCPU's log is the unmonitored guest's own arrivals if and only if every stray trap is harmless and no vCPU executes a hook's instruction while another is stepping over it |
| `ManyCpus.SecondVcpuGetsException` | qemu_patch/0001-kvm.c.diff:52-74 | two vCPUs at one hook: a run in which the second receives the exception, and can tell if and only if it changes anything |
| `ManyCpus.SecondVcpuUnseen` | docs/phase6_inline_qemu_design.md:520-523 | two vCPUs at one hook: a run in which the second passes it unlogged |
| `Pending.TableShape` | qemu_patch/target/i386/kvm/vmi-syscall-monitor.c:551-574 | at most 64 calls pend, never two with one key |
| `Pending.Conservation` | README.md:467-470 | at every point, the calls that entered are the calls with a line plus those pending, call by call and in number |
| `Pending.LineOrigin` | qemu_patch/target/i386/kvm/vmi-syscall-monitor.c:551-605 | where each line comes from: a result is that of the return under the call's key with nothing under that key in between; a superseded call was entered again under its key; an evicted one was the oldest of 64 when another key came |
| `Pending.FlushedLines` | qemu_patch/target/i386/kvm/vmi-syscall-monitor.c:512-531 | the flush adds one line per pending call, oldest first, marked shutdown |
| `Pending.EntryOnlyLog` | qemu_patch/target/i386/kvm/vmi-syscall-monitor.c:545-549 | without the return hook the log is the calls in the order they entered, and nothing ever pends |
| `Pending.FlushedIsPermutation` | README.md:467-473 | after the shutdown flush there is exactly one line per call that entered |
| `Pending.ModesAgree` | README.md:472-473 | dropping the results from the flushed return-mode log gives a permutation of the log of the entry-only monitor on the same run |
| `Pending.OrderIff` | README.md:507-509 | the two logs list the calls in the same order if and only if no call overtakes an older one |
| `Pending.NoOverlapSameOrder` | README.md:507-509 | without overlapping calls the two logs are identical |
| `Pairing.PendsIffHeld` | qemu_patch/target/i386/kvm/vmi-syscall-monitor.c:551-574 | for every trace, overflow included: a key pends from its entry until something returns under it or 64 younger keys are in use |
| `Pairing.NothingLost` | README.md:469-470 | with at most 64 keys in use at any time no call is given up for lack of room |
| `Pairing.FairIsPaired` | README.md:461-466 | under every interleaving and any number of pending calls, a line with a result never mixes two calls, as long as no call returns under a key held for another |
| `Pairing.UnfairIsMispaired` | qemu_patch/target/i386/kvm/vmi-syscall-monitor.c:586-605 | otherwise some line does mix two calls |
| `Pairing.PairedIffFair` | README.md:461-466 | the two as an if-and-only-if over all traces |
| `Pairing.ProperIsPaired` | README.md:461-466 | distinct keys among calls in progress are enough, with no limit on their number |
| `Pairing.CompletionLog` | README.md:472-473 | with at most 64 of them, the log is one line per call that came back, in completion order, and the table is the calls in progress |
| `Pairing.RunNatural` | qemu_patch/target/i386/kvm/vmi-syscall-monitor.c:533-610 | the table never looks at arguments or results |
| `Pairing.RealLinesPaired` | README.md:461-466 | pairing for real arguments and return values |
| `Pairing.RealLogComplete` | README.md:472-473 | the completion log for real arguments and return values |
| `PendingTable.FullIff` | qemu_patch/target/i386/kvm/vmi-syscall-monitor.c:562-574 | no slot is free if and only if 64 calls pend |
| `PendingTable.OldestIsHead` | qemu_patch/target/i386/kvm/vmi-syscall-monitor.c:514-531 | the used slot with the smallest sequence number holds the oldest pending call |
| `PendingTable.Slots.WriteUnfinished` | qemu_patch/target/i386/kvm/vmi-syscall-monitor.c:505-510 | writes the call's line and takes exactly that call out |
| `PendingTable.Slots.Scan` | qemu_patch/target/i386/kvm/vmi-syscall-monitor.c:551-569 | one pass over the slots retires the call under the key and finds a free slot and the oldest call |
| `PendingTable.Slots.EvictOldest` | qemu_patch/target/i386/kvm/vmi-syscall-monitor.c:570-574 | a full table gives up the oldest call and frees its slot |
| `PendingTable.Slots.HoldEntry` | qemu_patch/target/i386/kvm/vmi-syscall-monitor.c:551-583 | the slot array refines the queue: supersede, evict the oldest, or just add |
| `PendingTable.Slots.HandleEntry` | qemu_patch/target/i386/kvm/vmi-syscall-monitor.c:533-584 | an entry is written at once without the return hook, and held with it |
| `PendingTable.Slots.HandleHit` | qemu_patch/target/i386/kvm/vmi-syscall-monitor.c:639-643 | the dispatch of a hit, in either mode |
| `PendingTable.Slots.FindOldest` | qemu_patch/target/i386/kvm/vmi-syscall-monitor.c:520-525 | the used slot with the smallest sequence number, or none |
| `PendingTable.Slots.FlushPending` | qemu_patch/target/i386/kvm/vmi-syscall-monitor.c:512-531 | everything pending is written, oldest first, and the table is empty |
| `PendingTable.Slots.HandleReturn` | qemu_patch/target/i386/kvm/vmi-syscall-monitor.c:586-610 | the call under the key is written with the result; an unmatched return changes nothing |
| `EndToEnd.EntryOnlyFile` | qemu_patch/target/i386/kvm/vmi-syscall-monitor.c:545-549 | without the return hook: after boot-sync the file is the unmonitored guest's own calls, in order, one line each |
| `EndToEnd.EnteredAtEntry` | qemu_patch/target/i386/kvm/vmi-syscall-monitor.c:616-643 | the calls that enter are exactly the hits at the entry address, in order |
| `EndToEnd.LineIsOneCall` | qemu_patch/target/i386/kvm/vmi-syscall-monitor.c:586-643 | a line with a result joins a hit at the entry address to the next hit under its key, which is at the return address |
| `EndToEnd.FileIsFaithful` | README.md:461-473 | with the return hook: after boot-sync, once flushed, the file has one line for every hit of the unmonitored guest at the entry address; every line with a result is one call's, its arguments read at the entry address and its result at the return address under the same key, with nothing under that key in between |
| `EndToEnd.FileIsComplete` | README.md:461-473 | if what the guest did at the two addresses is calls with distinct keys, at most 64 at a time, the file is its completed calls in completion order with their own results |
| `Tail.LinesOfJoin` | run_capture_inline.py:166-191 | complete lines followed by anything are the first lines of the whole |
| `Tail.PassedNext` | run_capture_inline.py:182-191 | a read yields a complete line if and only if one is left, and the position stays right behind what was yielded |
| `Tail.PollOnce` | run_capture_inline.py:179-191 | one poll: a complete line is yielded, anything else is rewound |
| `Tail.TailLines` | run_capture_inline.py:166-191 | for every way the file grows between polls, the yielded lines joined are the file up to the read position, each complete, as many as the polls allow; once appends stop, one poll per remaining line leaves only an unterminated remainder unread |
| `Tail.CatchesUp` | run_capture_inline.py:179-191 | while the file keeps its lines each poll yields one until none is left |
| `Tail.CaughtUp` | run_capture_inline.py:184-190 | then only an unterminated remainder is unread |
| `Tail.ShowLines` | run_capture_inline.py:203-217 | count = decodable lines; printed = all their events in order, or those from the first accept4 on |
| `Tail.RunInteractive` | run_capture_inline.py:194-221 | count = decodable lines of a prefix of the log; printed = all of them, or those from the first accept4 on |
| `Hmp.RecvUntilPrompt` | attach_gdbstub.py:52-60 | the text up to the first chunk boundary that ends in `(qemu) `, or an error when an empty chunk or the end comes first |
| `Hmp.WholeUnderAllCuts` | attach_gdbstub.py:52-60 | a stream is received whole under every chunking if and only if the prompt ends no shorter prefix of it |
| `Hmp.CleanRender` | attach_gdbstub.py:34-34 | removing escape sequences undoes every interleaving of complete sequences with escape-free text |
| `Hmp.EscapeLenIff` | attach_gdbstub.py:34-34 | a match starts where and only where ESC, `[`, digits and semicolons and a letter stand, and covers exactly them |
| `Hmp.CleanFixedIff` | attach_gdbstub.py:34-34 | a removal changes nothing if and only if there is no complete escape sequence in the text |
| `Hmp.CleanOnce` | attach_gdbstub.py:67-70 | on a terminal stream one removal is enough |
| `Hmp.CleanNotIdempotent` | attach_gdbstub.py:67-70 | any sequence nested in the opening of any other: one removal leaves a complete sequence behind |
| `Hmp.OnceIff` | attach_gdbstub.py:67-70 | for every text: one removal is enough if and only if no sequence joins up across the removed ones, told by one pass over the text |
| `Hmp.ReplyIs` | attach_gdbstub.py:67-73 | the same for any received text with an echoed line, with or without the prompt at its end |
| `Hmp.NoLineNoReply` | attach_gdbstub.py:71-73 | without an echoed line the reply is empty |
| `Hmp.StripIs` | attach_gdbstub.py:73-73 | stripping takes off exactly the blanks on both sides |
| `Hmp.ReplyRecovered` | attach_gdbstub.py:63-73 | for every chunking and every mixing-in of escape sequences, the reply after the echoed line, with exactly the blanks on both sides taken off |
| `Naming.Lookup` | qemu_patch/target/i386/kvm/vmi-syscall-table.h:201-215 | the binary search finds the entry with the number if and only if there is one, as a dictionary would |
| `Naming.NamesUnique` | qemu_patch/target/i386/kvm/vmi-syscall-table.h:201-215 | there is only one right answer, so the binary search and the dictionary agree |
| `Naming.InlineEventIs` | qemu_patch/target/i386/kvm/vmi-syscall-monitor.c:443-465 | the monitor's event: the number and the first argc of six argument registers as they are, six for an unknown number, named by the entry that agrees with the number in its low 32 bits |
| `Naming.GdbEventIs` | monitor.py:79-93 | the script's event: the same with registers read as signed and the whole number looked up |
| `Naming.PathsAgreeIff` | qemu_patch/target/i386/kvm/vmi-syscall-monitor.c:443-465 | monitor and gdb script write the same number, name and arguments if and only if the number and the arguments written are below 2^63 and cutting the number to 32 bits does not turn an unknown number into a known one |
| `GdbPath.ExpectedNext` | monitor.py:76-100 | before the budget is spent a passing hit adds its event and a filtered one adds none |
| `GdbPath.SyscallBreakpoint.Stop` | monitor.py:76-110 | a hit the filter keeps adds the one event that describes it, any other adds none; gdb detaches exactly when the budget is spent, and the guest is never stopped |
| `GdbPath.SpentIsFinal` | monitor.py:102-106 | hits after the budget is spent could add nothing |
| `GdbPath.Session` | monitor.py:76-110 | for every hit sequence and budget N the log is the first max(1, N) hits that the filter keeps, in order, each with its signed number, its table entry and the first argc of its six argument registers |

## Left out

- Locking, KVM ioctls and threads: each debug exit, timer tick and DMA request is one atomic step. Hardware breakpoints are one flag, `hwMatch`.
- Debug writes that report success without landing: the read-back branch for them is in the code of the model but not reachable in it, because a reachable write lands.
- Translation that differs between the two hooks within one handler call.
- A guest that delivers its own int3 or single-step traps: only traps at the hooks and the monitor's own steps occur in `Machine`; `Monitor.ClaimedExactly` and `VmiMonitor.Vmi.HandleDebug` cover every exit of the handler itself.
- Wrap-around of the 64-bit sequence number of pending calls.
- fw_cfg: DMA writes into entries, accesses refused half-way, reading and answering the descriptor.
- The text of a JSON line: timestamps, durations, errno names, hexadecimal formatting, `format_ret`, `format_event`.
- Text decoding: the log and the monitor's replies are taken byte for character, with no multi-byte characters and no newline translation.
- Timeouts and the receive size of the text monitor's socket; the pace of polling.
- Interrupting the live view with Ctrl-C: the view is then that of a shorter list of polls.
- Parsing of environment variables and number lists, and address discovery with nm and objdump.
- The contents of the syscall table: any strictly increasing table is allowed.
- Launching and stopping kraft, QEMU and gdb, the benchmarks, `validate_strace.py`, `run_capture_from_boot.py` and `gdb_session.py`: process control and statistics with little to prove.
