# Verification of the uRISCV simulation kernel

uRISCV simulates a multiprocessor RISC-V machine: up to 16 processors, a system bus that keeps the simulated clock and a
queue of timed events, an interrupt controller with mailboxes between processors, and memory-mapped devices. This project
models that kernel and the self-contained parts around it in Dafny and proves what they are meant to guarantee.
`dafny verify dfyconfig.toml` checks everything.

How the pieces fit:

* **Clock and events** (`EventQueue`, `SystemBus`): the linked event queue with its insertion shortcut, and the tick that
  drains it while callbacks insert new events. Every scheduled event fires once, on its deadline.
* **Fast-forward** (`Processor`, `Machine`, `FastForward`, `Wakeups`, `Simulator`): skipping over idle time reaches the very
  state that single rounds reach. The proof needs that a sleeping processor has no interrupt pending, in every reachable
  machine. A sleeping processor wakes exactly when its timer has run out.
* **Interrupt controller** (`Interrupts`, `InterruptSources`, `InterruptArbitration`, `Mailboxes`, `InterruptController`):
  wires agree with bitmaps and mailboxes over every run, arbitration is fair, mail is first in first out.
* **Devices** (`Devices`, `DeviceEvents`, `DeviceLines`, `Terminal`, `TerminalText`, `TerminalRuns`, `Dma`, `Disk`,
  `DiskDevice`, `DiskRefinement`, `DiskRuns`): the two halves of a terminal behind one callback, whose completions travel
  through the event queue and whose signals go to the interrupt controller, and the text that passes through it; the disk's
  block buffer, which cannot be told from no buffer in any run over the event queue, and what is written, which comes back.
* **Processor pieces** (`Tlb`, `SubWords`, `SpinLock`, `Multiply`): translation against an abstract page map and the fault
  handler's retry, byte and halfword accesses against a flat memory, the spin lock, 64-bit products from 16-bit halves.
* **Text formats** (`Json`, `JsonLayout`, `JsonRoundTrip`, `JsonParser`, `MachineConfig`, `MachineConfigLoading`,
  `MachineConfigRoundTrip`, `MachineConfigObject`): what a printout looks like, which trees survive printing and parsing,
  what a configuration file says, and which configurations survive saving and loading, exactly.
* **Debugger indexes** (`Stoppoints`, `StoppointSet`, `SymbolTable`, `Relocation`): ordered lookup equals a linear scan, and
  relocation moves stoppoints along with their symbols.

Objects that change in place are classes; each method's contract gives the new state as a function of the old one, and the
theorems are lemmas about those functions. Machine words are natural numbers below 2^32, so that every wrap is written out;
sets of wires are sets of bit positions (`Bits` holds what divisions and powers of two need).

Where the code does not keep what one would expect of it, the model follows the code and the exact condition is proved:

* Two events that tie fire in order of insertion, except that a tie with the head of the queue overtakes it (`InsertTie`).
* A callback that asks for a delay of zero ticks makes the drain loop run it for ever (`ZeroDelayRepeats`, `RetiresIff`).
* A second request of a source that is still up, routed to another processor, leaves the first processor interrupted for
  good (`SecondRequestStrandsTheFirst`, `StrandingIsReachable`, `StartKeepsExclusiveIff`). A terminal can issue one: both
  of its halves finishing request the line twice (`BothHalvesRequest`).
* A drive waits for a sector by the time already spent in the current one where it means the time left, so it meets the
  start of the sector only from the middle of one (`WaitMeetsSectorIff`).
* The random TLB index gets to every slot if and only if the size of the table is a power of two (`RandomReachesAllIff`), and
  a cleared table still holds page 0 of address space 0, as an invalid page (`ClearLeavesFirst`).
* A swap on an address that does not answer signals a fault and still writes its destination register (`AmoSwap`).
* The interval timer's request marks the mailbox line in its target's mask, and its acknowledgement leaves the mark
  (`TimerMarksMail`).
* A processor reset clears its pending register but not the controller's bitmaps (`ResetKeepsWiresIff`).
* A disk write whose block could not be fetched ends READY and stores what the fetch left in the buffer
  (`WriteStoresIff`, `FetchStops`).
* A signed halfword load returns the whole word (`HalfLoadIff`). The mixed product ignores the sign of its second operand
  (`UnsSignMult`); its branch for a negative first operand tests an unsigned word and is never taken.
* Printed numbers below 0 do not parse, and numbers from 2^31 on wrap (`RoundTripIff`, `NumberIsExactIff`).
* A floor address of 0 in a configuration file stands for the end of RAM as sized before the file's own RAM size is read
  (`LoadTreeIs`).
* A saved configuration forgets that a slot without a file was enabled, and a MAC id whose first byte is odd (`SaveLoadIff`).

## Model

| member | source | states |
|---|---|---|
| `EventQueues.InsertKeeps` | src/uriscv/event.cc:73-104 | insertion keeps the queue in time order and its entries are the old ones plus the new one |
| `EventQueues.InsertTie` | src/uriscv/event.cc:80-98 | order of ties: an entry due with the head goes before it, an entry due with a later one goes behind all such |
| `EventQueues.EventQueue.FindPredecessor` | src/uriscv/event.cc:86-98 | the pointer walk started from `lastIns` or from the head ends at the place a scan from the head would find |
| `EventQueues.EventQueue.InsertQ` | src/uriscv/event.cc:73-104 | the linked list with its shortcut holds what inserting into the sorted list gives; `lastIns` stays null or a node of the list; the deadline returned is clock plus delay |
| `EventQueues.EventQueue.RemoveHead` | src/uriscv/event.cc:108-121 | removes exactly the first entry and leaves `lastIns` on the list |
| `SystemBuses.AfterCallbackKeeps` | src/uriscv/systembus.cc:140-143 | one turn of the drain loop, whose callback may insert before the head is removed, removes precisely the event it ran and leaves one fewer due |
| `SystemBuses.RetiresIff` | src/uriscv/systembus.cc:140-143 | a turn removes the event it ran if and only if the inserted one is due strictly later or is indistinguishable from it |
| `SystemBuses.ZeroDelayRepeats` | src/uriscv/systembus.cc:140-143 | a zero delay leaves the queue as it was, with the same event next |
| `SystemBuses.DrainFires` | src/uriscv/systembus.cc:140-143 | the drain loop ends, having fired exactly the events that were due, in order; all that is left is later than the clock |
| `SystemBuses.DrainConserves` | src/uriscv/systembus.cc:140-143 | queued plus fired equals queued before plus inserted, entry by entry |
| `SystemBuses.DrainKeeps` | src/uriscv/systembus.cc:140-143 | any property of the world kept by every callback is kept by the drain |
| `SystemBuses.StepTimely` | src/uriscv/systembus.cc:126-164 | ticking, skipping and scheduling keep: whatever fired, fired on its deadline, and whatever is queued is still to come |
| `SystemBuses.EachEventFiresOnce` | src/uriscv/systembus.cc:126-164 | over every run, each scheduled event has fired as often as it was scheduled if its deadline has come and never if it has not, always with the clock at its deadline |
| `SystemBuses.PowerOnHistory` | src/uriscv/systembus.cc:79-84 | the bus as built has such a history, with nothing scheduled |
| `SystemBuses.SystemBus.ScheduleEvent` | src/uriscv/systembus.cc:307-309 | the delay is cut to 32 bits and the event inserted relative to the clock |
| `SystemBuses.SystemBus.DrainQueue` | src/uriscv/systembus.cc:140-143 | the loop over the linked queue computes the drain |
| `SystemBuses.SystemBus.ClockTick` | src/uriscv/systembus.cc:126-144 | one tick of clock, interval timer and queue |
| `SystemBuses.SystemBus.CountIdleCycles` | src/uriscv/systembus.cc:146-155 | ticks until an event is due or the timer underflows |
| `SystemBuses.SystemBus.SkipCycles` | src/uriscv/systembus.cc:157-164 | clock and timer jump |
| `Processors.Processor.AssertIRQ` | src/uriscv/processor.cc:410-417 | raises the line and wakes a sleeping processor |
| `Processors.Processor.SuspendCpu` | src/uriscv/processor.cc:645-649 | sleeps only with nothing pending |
| `Processors.Processor.TickCpuTimer` | src/uriscv/processor.cc:311-325 | the private timer's part of a cycle: at 0 its line goes up and wakes the processor and the count goes round, otherwise it counts down; disabled, it lowers the line |
| `Processors.Processor.SkipCycles` | src/uriscv/processor.cc:387-392 | the private timer jumps |
| `Interrupts.DeliverIs` | src/uriscv/mpic.cc:197-219 | the delivery loop gives each processor whose bit of the outbox word is set, and that has no unread message of the sender, the low byte of that word and raises its wire, and changes nobody else |
| `Interrupts.StepKeepsWires` | src/uriscv/mpic.cc:22-219 | every operation keeps, for each processor and device line: pending bit iff bitmap not empty iff mask bit; mailbox bit iff mailbox not empty; a remembered target still shows its source |
| `Interrupts.RunKeepsWires` | src/uriscv/mpic.cc:22-219 | the same over every interleaving of operations |
| `Interrupts.ResetKeepsWiresIff` | src/uriscv/processor.cc:237-292 | a processor reset keeps it if and only if nothing was up for that processor |
| `Interrupts.InitialWires` | src/uriscv/mpic.cc:17-20 | it holds at power-on |
| `Interrupts.AckTakes` | src/uriscv/mpic.cc:163-171 | reading mail takes the oldest message, lowers the line with the last one, and changes nothing else |
| `Interrupts.SettingsTake` | src/uriscv/mpic.cc:151-184 | a stored route or priority is what it then is, and nothing else changes |
| `Interrupts.TimerMarksMail` | src/uriscv/mpic.cc:22-103 | the interval timer's request and acknowledgement leave the mailbox line's mask bit set |
| `InterruptSources.StartKeepsExclusiveIff` | src/uriscv/mpic.cc:36-68 | a request keeps a source on one processor if and only if it is lost, the source was free, or the same processor is chosen |
| `InterruptSources.AlternatingRunsAreExclusive` | src/uriscv/mpic.cc:22-104 | if each source alternates request and acknowledgement, it is in at most its remembered target's bitmap, in every run |
| `InterruptSources.SecondRequestStrandsTheFirst` | src/uriscv/mpic.cc:60-103 | a second request that goes elsewhere strands the first bit and wire beyond the reach of acknowledgements |
| `InterruptSources.StrandingIsReachable` | src/uriscv/mpic.cc:22-104 | from power-on with two processors or more, one dynamic route to the first two and two requests strand processor 0 |
| `InterruptSources.InitialExclusive` | src/uriscv/mpic.cc:17-20 | at power-on no source is shown anywhere and none awaits an acknowledgement |
| `InterruptArbitration.SelectIsWinner` | src/uriscv/mpic.cc:38-53 | dynamic routing picks exactly the candidate of highest task priority that the rotating index reaches first, and nobody only when there is no candidate |
| `InterruptArbitration.RoundRobin` | src/uriscv/mpic.cc:42-53 | under a fixed mask and fixed priorities, whatever acknowledgements, mail and fixed requests fall between: the dynamic requests serve k top candidates once each in k deliveries, nobody else ever, and counts never differ by more than one |
| `InterruptArbitration.TargetsCount` | src/uriscv/mpic.cc:36-58 | each dynamic request of the series is delivered: there are as many targets as requests |
| `Mailboxes.BoxFits` | src/uriscv/mpic.cc:201-217 | a mailbox of distinct senders holds at most one message per processor |
| `Mailboxes.BoxesStayOk` | src/uriscv/mpic.cc:151-219 | in every run senders in a mailbox are distinct, so its length is at most the number of processors |
| `Mailboxes.InitialBoxes` | src/uriscv/mpic.cc:17-20 | mailboxes at power-on are in order |
| `Mailboxes.MailIsFifo` | src/uriscv/mpic.cc:163-217 | what was there and the low bytes of the outbox words accepted equal, in order, what was taken and what is left |
| `Mailboxes.DeliveryReads` | src/uriscv/mpic.cc:123-217 | an empty mailbox then reads the outbox word's low byte below the sender's number if the word names the processor, and 0 if not |
| `Mailboxes.SecondMessageIsDropped` | src/uriscv/mpic.cc:202-217 | a sender with an unread message changes neither that mailbox nor that processor |
| `Mailboxes.MessageReadsBack` | src/uriscv/mpic.cc:123-129 | the oldest message reads back with its exact sender and payload |
| `InterruptControllers.InterruptController.ChooseTarget` | src/uriscv/mpic.cc:36-53 | the selection loop computes the routing decision and moves the index past the target |
| `InterruptControllers.InterruptController.StartLine` | src/uriscv/mpic.cc:22-69 | the whole new state of controller and wires after a request |
| `InterruptControllers.InterruptController.EndLine` | src/uriscv/mpic.cc:71-104 | the whole new state after an acknowledgement |
| `InterruptControllers.InterruptController.DeliverIpi` | src/uriscv/mpic.cc:197-219 | the whole new state after a delivery |
| `InterruptControllers.InterruptController.WriteInbox` | src/uriscv/mpic.cc:163-171 | the whole new state after a mailbox acknowledgement |
| `FastForward.RoundOk` | src/uriscv/machine.cc:52-56 | every round of any program keeps: no sleeping processor has an interrupt pending, and events lie ahead |
| `FastForward.QuietRound` | src/uriscv/machine.cc:52-56 | a round of an idle machine is a skip of one, with no event fired and no interrupt raised |
| `FastForward.LoudRound` | src/uriscv/machine.cc:65-78 | a round of any other machine fires, raises or executes something |
| `FastForward.FastForwardIsExact` | src/uriscv/machine.cc:46-86 | k rounds pass without a trace if and only if k is within `idleCycles`, and then `skip(k)` ends in exactly the state of k rounds |
| `FastForward.SkipUsesIdle` | src/uriscv/machine.cc:65-86 | a skip within bounds uses up exactly that much idle time |
| `FastForward.SkipsAdd` | src/uriscv/machine.cc:80-86 | skipping a then b is skipping a plus b |
| `FastForward.ChunksAreOneSkip` | src/frontends/qriscv/debug_session.cc:402-420 | fast-forwarding in chunks of at most 50000 is one fast-forward |
| `FastForward.DrivingIsRunning` | src/uriscv/machine.cc:46-86 | any mix of rounds and skips reaches the state of the same number of single rounds |
| `FastForward.PowerOnOk` | src/uriscv/machine.cc:20-39 | the invariant holds at power-on |
| `Wakeups.ExpiryWakes` | src/uriscv/processor.cc:316-329 | a sleeping processor whose timer is at 0 executes its next instruction awake, with the timer's line pending and the count gone round |
| `Wakeups.SleepCountsDown` | src/uriscv/processor.cc:316-329 | any other cycle of a sleeping processor counts its timer down and does nothing else |
| `Wakeups.WakesAfter` | src/uriscv/processor.cc:311-329 | a processor that falls asleep with n on its timer and is left alone sleeps through exactly n cycles and wakes in the next |
| `Wakeups.UnderflowRaises` | src/uriscv/systembus.cc:126-144 | a tick with the interval timer at 0 raises its line at the processor the route selects, wakes it and leaves the others alone, before any event; other ticks raise nothing |
| `Wakeups.HaltStops` | src/uriscv/processor.cc:294-315 | a halted processor's cycle does nothing |
| `Wakeups.ResetStarts` | src/uriscv/processor.cc:237-292 | a reset processor runs, with nothing pending and its timer off |
| `Wakeups.OpsKeepCores` | src/uriscv/mpic.cc:22-219 | controller operations touch no processor's registers or timer |
| `Wakeups.InstructionTakes` | src/uriscv/processor.cc:333-352 | an instruction moves its own processor's registers on and no other's; control register writes and a store's effects take |
| `Wakeups.CompletionTakes` | src/uriscv/systembus.cc:140-143 | a device's completion changes devices and controller as the device says, and asks for its callbacks |
| `Wakeups.WaitSleeps` | src/uriscv/processor.cc:645-649 | waiting for an interrupt sleeps exactly if nothing is pending |
| `Wakeups.TimerStoreLowers` | src/uriscv/systembus.cc:495-499 | a store to the interval timer sets it and lowers its line where it was up, and no other line |
| `Wakeups.StoreSchedules` | src/uriscv/systembus.cc:307-309 | everything a store asks for is queued as often as asked, its delay cut to 32 bits |
| `Wakeups.MailArrives` | src/uriscv/mpic.cc:180-219 | a mail event delivers the outbox word it was made with |
| `Simulators.SteppingIdleIsSkipping` | src/uriscv/machine.cc:46-61 | `step(n)` of an idle machine is `skip(n)`, and reports n steps |
| `Simulators.PowerOffStops` | src/uriscv/machine.cc:46-61 | after power-off no round runs |
| `Simulators.Machine.CountIdleCycles` | src/uriscv/machine.cc:65-78 | the loop with its early exits returns the least idle count of bus and processors |
| `Simulators.Machine.FastForward` | src/uriscv/machine.cc:80-86 | the loop over bus and processors computes the skip |
| `Simulators.Machine.Step` | src/uriscv/machine.cc:46-61 | the step loop with its pause flag computes the rounds and their number |
| `Terminals.BothHalvesRequest` | src/uriscv/device.cc:627-741 | two halves finishing one after the other request the line twice with no acknowledgement in between |
| `Terminals.CompletionShows` | src/uriscv/device.cc:627-741 | which half a completion is for, ties included, the status it leaves with the byte above the code, and the character printed or taken |
| `Terminals.StoreShows` | src/uriscv/device.cc:478-598 | status, command, pending flag, deadline and delay after a store to either command register |
| `Terminals.TerminalDevice.WriteDevReg` | src/uriscv/device.cc:478-598 | registers, deadlines, pending flags, scheduled completion and signals after a store |
| `Terminals.TerminalDevice.CompleteDevOp` | src/uriscv/device.cc:627-741 | the same after a completion |
| `Terminals.TerminalDevice.Input` | src/uriscv/device.cc:743-762 | typed text joins what is unread, with a newline |
| `DeviceLines.SignalsKeepLine` | src/uriscv/systembus.cc:311-317 | after a device's signals the controller remembers a target for its line iff the last signal was a request, and under a fixed route shows the line there alone |
| `DeviceLines.OtherKeepsLine` | src/uriscv/mpic.cc:22-219 | requests, acknowledgements and routes of other lines, mail and priorities leave a line's state alone |
| `DeviceLines.InitialLine` | src/uriscv/mpic.cc:17-20 | every line is down at power-on |
| `DeviceEvents.TurnCounts` | src/uriscv/systembus.cc:140-143 | a turn of the drain loop changes the number of a device's queued completions at a deadline by the one it ran and those it scheduled |
| `TerminalRuns.RightHalf` | src/uriscv/device.cc:627-650 | the half a completion picks is busy and waiting for exactly that deadline, ties included |
| `TerminalRuns.CompletionKeeps` | src/uriscv/device.cc:627-741 | a completion keeps the queued deadlines equal to the awaited ones and the controller's line up iff a half has an interrupt pending |
| `TerminalRuns.DrainKeepsDesk` | src/uriscv/systembus.cc:140-143 | so does a whole drain, whatever else is in the queue |
| `TerminalRuns.RunsStayOk` | src/uriscv/device.cc:478-741 | in every run of stores, input, ticks, skips and controller operations for other lines: queued completions are one per busy half at its deadline, the Panic branches are not reached, every completion is on time, the controller remembers a target for the line iff a half is pending |
| `TerminalRuns.PendingIsShown` | src/uriscv/mpic.cc:22-104 | under a fixed route the processor routed to, and no other, shows the terminal iff a half is pending, and then its wire is up |
| `TerminalTexts.StoreKeepsText` | src/uriscv/device.cc:478-598 | a store keeps the text in order, and a command it starts has its completion 400 or 80 time units later |
| `TerminalTexts.FinishKeepsText` | src/uriscv/device.cc:627-741 | so does a completion, which prints byte 1 of the command it ends or shows the first unread byte |
| `TerminalRuns.TextComesThrough` | src/uriscv/device.cc:478-762 | from power-on, in every run: the output is byte 1 of the characters sent whose completion ran while the device worked, in order; what was typed, line by line with a newline, is what was received followed by what is unread |
| `TerminalRuns.PowerOnOk` | src/uriscv/device.cc:440-468 | this holds at power-on |
| `Dma.FetchIs` | src/uriscv/systembus.cc:221-242 | a block transfer from memory fails iff a word of it does not answer; otherwise the buffer holds exactly those words |
| `Dma.FetchStops` | src/uriscv/systembus.cc:232-239 | a transfer that fails leaves memory up to the first word that does not answer, all ones in that word, and beyond it what the buffer held |
| `Dma.AddressesApart` | src/uriscv/systembus.cc:221-242 | the words of a block are a word apart and do not coincide |
| `Dma.StoreIs` | src/uriscv/systembus.cc:221-242 | a block transfer to memory succeeds iff it is aligned and every word is accepted, and then every word is in its place; on an error exactly the words before the first refused one are; nothing else changes |
| `Dma.Bus.DmaFetch` | src/uriscv/systembus.cc:232-239 | the loop computes the transfer, with the buffer as far as it got on an error |
| `Dma.Bus.DmaStore` | src/uriscv/systembus.cc:227-231 | the loop to memory likewise |
| `Disks.IndexInjective` | src/uriscv/device.cc:1053-1057 | different cylinder, head and sector triples in range have different places in the image |
| `Disks.OffsetIs` | src/uriscv/device.cc:1053-1057 | an offset in range is not cut by 32-bit arithmetic and its block lies in the image |
| `Disks.LayoutIs` | src/uriscv/device.cc:1053-1057 | the first sector is the first block; consecutive sectors, heads and cylinders lie a block, a track and a cylinder apart |
| `DiskDevices.DiskDevice.WriteDevReg` | src/uriscv/device.cc:841-1014 | registers, buffer, tag, delay and signals after a store |
| `DiskDevices.DiskDevice.CompleteDevOp` | src/uriscv/device.cc:1018-1134 | registers, buffer, tag, image, memory and signals at the end of an operation |
| `DiskRefinement.PutSector` | src/uriscv/blockdev.cc:45-58 | writing a block at a sector's offset changes that sector and no other |
| `DiskRefinement.WriteKeepsOk` | src/uriscv/device.cc:841-1014 | whenever the drive is not busy a valid tag means the buffer equals its sector, after every store |
| `DiskRefinement.CompleteRefines` | src/uriscv/device.cc:1018-1134 | the end of an operation does what a drive without a buffer does, restores the tag's truth and never panics |
| `DiskRefinement.StepRefines` | src/uriscv/device.cc:841-1134 | each step of the drive is a step of the drive without a buffer |
| `DiskRefinement.BufferIsInvisible` | src/uriscv/device.cc:841-1134 | in every run whose completions come while the drive is busy and whose writes could fetch their block: same registers, sectors, memory and signals as without a buffer |
| `DiskRefinement.WriteStoresIff` | src/uriscv/device.cc:943-983 | a write in range always ends READY and stores what the transfer left in the buffer, which is the block of memory iff all of it answers |
| `DiskRefinement.ReadDelivers` | src/uriscv/device.cc:896-1093 | a read in range ends READY with the words of the sector the command names in memory, word for word, iff memory accepts them all, and DMAERR with those before the first refused one otherwise |
| `DiskRefinement.ReadAsks` | src/uriscv/device.cc:896-932 | a read of the sector in the buffer takes the time of a transfer, of any other the time of a read from the disk |
| `DiskRefinement.WriteAsks` | src/uriscv/device.cc:943-984 | a write leaves its block in the buffer and takes the time of a write, or, if it could not fetch it, nothing and the time of a transfer |
| `DiskRefinement.BufferAfter` | src/uriscv/device.cc:1018-1134 | which sector the buffer holds after each operation |
| `DiskRefinement.WriteThenRead` | src/uriscv/device.cc:841-1134 | a block written to a sector and read from it to another place is there what it was at the first |
| `DiskRefinement.SeekMoves` | src/uriscv/device.cc:873-1046 | a seek in range moves the heads to the cylinder named |
| `DiskRefinement.SectorsBetweenIs` | src/uriscv/device.cc:919-923 | the sectors to let pass are those between the one under the heads and the one wanted, round the disk |
| `DiskRefinement.WaitMeetsSectorIff` | src/uriscv/device.cc:911-930 | the wait ends at the start of the sector wanted iff half the current sector had passed, or none of the only one |
| `DiskRefinement.ReadTime` | src/uriscv/device.cc:911-930 | how long a read takes, by the sectors that pass |
| `DiskRefinement.WriteTime` | src/uriscv/device.cc:962-982 | a write takes what a read would that starts when its block has been fetched |
| `DiskRefinement.SeekTime` | src/uriscv/device.cc:880-886 | seeks take a tick and time in proportion to the way, either way |
| `DiskRefinement.ResetTime` | src/uriscv/device.cc:856-864 | a reset takes 400 time units and the way back to cylinder 0 |
| `DiskRefinement.PowerOnOk` | src/uriscv/device.cc:791-827 | a drive as built, its buffer empty, meets the invariant |
| `DiskRefinement.DiskIsPrompt` | src/uriscv/device.cc:853-983 | with figures that keep delays in 32 bits, every completion is at least a tick away, as the event queue demands |
| `DiskRuns.CompletionKeeps` | src/uriscv/device.cc:1018-1134 | a completion that heads the queue finds the drive busy and waiting for this deadline, and leaves it idle with none queued |
| `DiskRuns.RunAppends` | src/uriscv/device.cc:841-1134 | a legal run of the drive goes on with one more step to what that step makes of its end |
| `DiskRuns.DrainKeepsBay` | src/uriscv/systembus.cc:140-143 | a whole drain keeps one completion queued iff the drive is busy, whatever others schedule and do to memory |
| `DiskRuns.WriteSchedules` | src/uriscv/device.cc:841-1014 | a store asks for a completion iff it makes the drive busy |
| `DiskRuns.RunsStayOk` | src/uriscv/device.cc:841-1134 | in every run over the event queue: one completion queued at its deadline iff the drive is busy, no Panic branch reached, and what happened to the drive is a run whose completions come only while it is busy |
| `DiskRuns.BufferIsInvisibleOnTheBus` | src/uriscv/device.cc:841-1134 | in every such run whose writes could fetch their block: same registers, sectors, memory and signals as without a buffer |
| `DiskRuns.StoresAreLegal` | src/uriscv/device.cc:853-983 | with such figures every store is one the runs admit |
| `DiskRuns.PowerOnOk` | src/uriscv/device.cc:791-827 | the runs may start at power-on |
| `Tlbs.ProbeIs` | src/uriscv/processor.cc:1604-1615 | the highest matching entry is the one found |
| `Tlbs.ProbeLooksUp` | src/uriscv/processor.cc:1604-1615 | probing looks up the page map: entries laid over one another, each covering its page in its address space or, if global, in all |
| `Tlbs.TranslationIs` | src/uriscv/processor.cc:734-773 | against that page map: refill fault iff the page is not mapped, invalid iff V is clear, modified iff a store meets D clear, otherwise frame plus offset |
| `Tlbs.GlobalIsEverywhere` | src/uriscv/processor.cc:121-131 | a page mapped in one address space and not in another is not global |
| `Tlbs.PageDependsOn` | src/uriscv/processor.cc:121-131 | the map looks at page and address space only, and a page that is not global belongs to one address space |
| `Tlbs.FaultThenProbe` | src/uriscv/processor.cc:779-783 | after a fault the saved EntryHi makes TLBP miss after a refill fault and find the entry at fault after the others |
| `Tlbs.InstallTakesIff` | src/uriscv/processor.cc:1252-1266 | a written entry becomes the page's translation if and only if no higher entry matches |
| `Tlbs.InstallKeepsOthers` | src/uriscv/processor.cc:1252-1266 | other pages are untouched unless their entry was overwritten |
| `Tlbs.RefillThenRetry` | src/uriscv/processor.cc:734-773 | after a refill fault, TLBWR or TLBWI of a permitting EntryLO makes the same access translate to its frame and offset |
| `Tlbs.RepairThenRetry` | src/uriscv/processor.cc:739-760 | after the other faults, TLBP, a permitting EntryLO and TLBWI do |
| `Tlbs.RandomTick` | src/uriscv/processor.cc:579-581 | the random index always names a slot |
| `Tlbs.RandomSteps` | src/uriscv/processor.cc:579-581 | in a table whose size is a power of two it goes down slot by slot and round again |
| `Tlbs.RandomReachesAllIff` | src/uriscv/processor.cc:579-581 | it gets to every slot if and only if the size is a power of two |
| `Tlbs.AccessAnswers` | src/uriscv/processor.cc:702-783 | access faults iff misaligned or in user mode below KUSEG, with only BADVADDR changed; below the floor the address itself and no register changed; else what the page map decides, faults leaving the page in EntryHi |
| `Tlbs.WriteThenRead` | src/uriscv/processor.cc:1246-1257 | TLBR after TLBWI gives the two words back with their reserved bits cleared |
| `Tlbs.ClearLeavesFirst` | src/uriscv/processor.cc:682-689 | after TLBCLR the first entry alone decides, except for page 0 of address space 0, which is invalid |
| `Tlbs.Mapper.ProbeTLB` | src/uriscv/processor.cc:1604-1615 | the upward loop keeps the highest match |
| `Tlbs.Mapper.MapVirtual` | src/uriscv/processor.cc:702-774 | the method gives that answer and leaves those registers |
| `Tlbs.Mapper.DoTlbp` | src/uriscv/processor.cc:1238-1244 | index of the match, or the sign bit |
| `Tlbs.Mapper.ZapTLB` | src/uriscv/processor.cc:682-689 | clears every entry but the first |
| `SubWords.MergedByte` | src/uriscv/processor.cc:1659-1668 | merging a byte changes that byte of the word only |
| `SubWords.MergedHWord` | src/uriscv/processor.cc:1699-1710 | merging a halfword changes its two bytes only |
| `SubWords.StoreRefines` | src/uriscv/processor.cc:1454-1509 | SB, SH and SW change exactly their bytes of the flat little-endian memory |
| `SubWords.RunRefines` | src/uriscv/processor.cc:1454-1509 | the same over any series of stores |
| `SubWords.ByteLoads` | src/uriscv/processor.cc:797-841 | LB and LBU return the byte at the address, sign- or zero-extended |
| `SubWords.HalfLoads` | src/uriscv/processor.cc:842-853 | LHU returns its two bytes |
| `SubWords.WordLoads` | src/uriscv/processor.cc:819-829 | LW returns its four bytes |
| `SubWords.HalfLoadIff` | src/uriscv/processor.cc:1672-1683 | LH is right if and only if the rest of the word already extends the halfword |
| `SubWords.Ram.StoreByte` | src/uriscv/processor.cc:1467-1479 | read, merge and write back is the byte store |
| `SubWords.Ram.StoreHalf` | src/uriscv/processor.cc:1480-1491 | read, merge and write back is the halfword store |
| `SubWords.Ram.StoreWord` | src/uriscv/processor.cc:1492-1501 | the word store |
| `SpinLocks.AmoSwap` | src/uriscv/processor.cc:943-955 | memory gets the source register as it was before the destination register, which gets the old memory word, even when they are the same register; on an address that does not answer, all ones and a fault, a store fault covering a load fault |
| `SpinLocks.RetryKeeps` | src/support/liburiscv/liburiscv.S:361-363 | a swap acquires if and only if it sees 0 |
| `SpinLocks.StepKeeps` | src/support/liburiscv/liburiscv.S:358-369 | any instruction of any processor keeps: lock 0 and no holder, or lock 1 and exactly one |
| `SpinLocks.MutualExclusion` | src/support/liburiscv/liburiscv.S:358-369 | in every interleaving of any number of processors the word is 0 or 1, is 1 iff somebody holds the lock, and no two are inside |
| `SpinLocks.AcquiresAlone` | src/support/liburiscv/liburiscv.S:358-364 | a free lock is had in five instructions by a processor left alone |
| `SpinLocks.EntersAlone` | src/support/liburiscv/liburiscv.S:358-364 | so does a call from outside |
| `SpinLocks.LeavesAlone` | src/support/liburiscv/liburiscv.S:366-369 | a release takes the call and two instructions and leaves the lock free and nobody inside |
| `Multiplication.UnsMult` | src/uriscv/utility.cc:116-130 | hi * 2^32 + lo + carry * 2^48 is the product, for all words |
| `Multiplication.ExactIff` | src/uriscv/utility.cc:116-130 | the result is exact if and only if the middle sum fits in 32 bits |
| `Multiplication.MagnitudesFit` | src/uriscv/utility.cc:124-126 | it fits when no operand is above 2^31 |
| `Multiplication.UnsAdd` | src/uriscv/utility.cc:69-72 | sum and carry out |
| `Multiplication.SignMult` | src/uriscv/utility.cc:136-164 | the exact signed 64-bit product, for every pair of words |
| `Multiplication.UnsSignMult` | src/uriscv/utility.cc:170-195 | the mixed product is right if and only if its second operand is not negative and nothing is lost, or its first is 0 |
| `JsonRoundTrip.RoundTripIff` | src/base/json.cc:128-439 | in every layout a tree comes back from its printout if and only if its strings have no double quote and its numbers are not negative |
| `JsonRoundTrip.ReparseIff` | src/base/json.cc:270-439 | a tree parsed from any text is well formed, and comes back again iff no number in it wrapped below 0 |
| `JsonRoundTrip.NodeIsSound` | src/base/json.cc:277-339 | whatever parses has keys in order and no quote in any string |
| `JsonRoundTrip.SetKeepsOrder` | src/base/json.cc:82-88 | setting a member keeps the keys in order and adds no other |
| `JsonRoundTrip.NumberIsExactIff` | src/base/json.cc:286-287 | a number is read exactly if and only if it is below 2^31 |
| `JsonLayout.PrintIsLines` | src/base/json.cc:128-222 | an indented printout is its brackets, members and elements line by line, each indented by its depth |
| `JsonLayout.PrintIsOneLine` | src/base/json.cc:128-222 | without indentation it is one line, with a space before members and further elements |
| `Json.SpaceIs` | src/base/json.cc:341-387 | six characters are skipped between tokens |
| `Json.ParseNode` | src/base/json.cc:277-298 | the recursive parser ends on every input, having read something whenever it succeeds |
| `JsonParsers.JsonParser.Parse` | src/base/json.cc:270-275 | the parser object gives the parse of the text, whatever it parsed before |
| `JsonParsers.JsonParser.ParseObject` | src/base/json.cc:300-322 | the member loop |
| `JsonParsers.JsonParser.ParseArray` | src/base/json.cc:324-339 | the element loop with its token read ahead |
| `JsonParsers.JsonParser.NextToken` | src/base/json.cc:341-387 | the next token and what is left to read |
| `JsonParsers.Output.Serialize` | src/base/json.cc:128-268 | appending node by node writes the printout |
| `JsonParsers.Output.SerializeObject` | src/base/json.cc:128-152 | the loop over members |
| `JsonParsers.Output.SerializeArray` | src/base/json.cc:201-222 | the loop over elements |
| `MachineConfigs.LoadedFrom` | src/uriscv/machine_config.cc:35-117 | whatever a file holds, a configuration loaded from it has every number in bounds and a floor that is not 0 |
| `MachineConfigs.Bump` | src/uriscv/machine_config.cc:23-30 | a value out of bounds gives the bound it passed, any other itself |
| `MachineConfigs.DigitsAre` | src/uriscv/machine_config.cc:67-69 | hexadecimal digits, read in either case and written in lower case |
| `MachineConfigLoading.StoulReads` | src/uriscv/machine_config.cc:67-69 | how the floor address is read: sign, prefix, digits, wrap and refusal |
| `MachineConfigLoading.FieldIs` | src/uriscv/utility.cc:228-247 | how a field of a MAC id is read |
| `MachineConfigLoading.NumbersAre` | src/uriscv/machine_config.cc:60-71 | a number that is there is clamped, one that is missing stays, and any other shape is refused |
| `MachineConfigLoading.SlotsAre` | src/uriscv/machine_config.cc:91-112 | every slot is what the file says of it, and slots it does not name stay |
| `MachineConfigLoading.LoadTreeIs` | src/uriscv/machine_config.cc:59-117 | a tree loads if and only if everything in it has its shape, and then the configuration is what it says, setting by setting, over the factory settings |
| `MachineConfigLoading.KeyIs` | src/uriscv/machine_config.cc:32-33 | a slot's key is the kind of device on its line and its number there |
| `MachineConfigLoading.SavedLines` | src/uriscv/machine_config.cc:133-180 | the saved text is the tree laid out with four blanks to a level |
| `MachineConfigRoundTrip.FloorReads` | src/uriscv/machine_config.cc:67-69 | a floor address printed in hexadecimal reads back |
| `MachineConfigRoundTrip.MacReads` | src/uriscv/utility.cc:228-247 | a MAC id printed reads back, and is refused iff its first byte is odd |
| `MachineConfigRoundTrip.KeyInjective` | src/uriscv/machine_config.cc:153-168 | device slots have distinct keys |
| `MachineConfigRoundTrip.TreeLoads` | src/uriscv/machine_config.cc:35-180 | loading the saved tree gives the configuration with empty slots off and unkept MAC ids dropped |
| `MachineConfigRoundTrip.LoadOfSaved` | src/uriscv/machine_config.cc:35-180 | so does loading the saved text, when no name has a double quote |
| `MachineConfigRoundTrip.SaveLoadIff` | src/uriscv/machine_config.cc:35-180 | a configuration comes back unchanged if and only if no name has a double quote, slots without file are off, and MAC ids are even and on slots with a file |
| `MachineConfigRoundTrip.SavingTwiceIsOnce` | src/uriscv/machine_config.cc:35-180 | a second save and load changes nothing more |
| `MachineConfigObjects.MachineConfig.constructor` | src/uriscv/machine_config.cc:293-313 | the factory settings, within bounds |
| `MachineConfigObjects.MachineConfig.SetRamSize` | src/uriscv/machine_config.cc:206-208 | clamps, and keeps every bound |
| `MachineConfigObjects.MachineConfig.SetTLBFloorAddress` | src/uriscv/machine_config.cc:222-227 | 0 stands for the end of RAM as sized now, so the floor is never 0 |
| `MachineConfigObjects.MachineConfig.Save` | src/uriscv/machine_config.cc:133-180 | builds and prints the tree, slot by slot |
| `MachineConfigObjects.MachineConfig.LoadFromFile` | src/uriscv/machine_config.cc:35-117 | parses and applies the tree, error by error |
| `Stoppoints.IdIsKeptIff` | src/uriscv/stoppoint.cc:36-50 | an added stoppoint keeps its id if and only if it is above all others |
| `Stoppoints.CoverIsUnique` | src/include/uriscv/stoppoint.h:44-50 | in disjoint ranges at most one covers an address |
| `Stoppoints.ScanIs` | src/uriscv/stoppoint.cc:79-103 | a probe finds the one enabled stoppoint that covers the address for such an access, and none if there is none |
| `Stoppoints.RunsStayWellFormed` | src/uriscv/stoppoint.cc:32-77 | after any series of Add, Remove, Clear and SetEnabled ranges are disjoint and ids go up |
| `StoppointSets.StoppointSet.CanInsert` | src/uriscv/stoppoint.cc:25-30 | whether the range is clear of all others |
| `StoppointSets.StoppointSet.NextId` | src/uriscv/stoppoint.cc:129-134 | one above the highest id |
| `StoppointSets.StoppointSet.Add` | src/uriscv/stoppoint.cc:36-50 | list and map get the stoppoint, or neither does |
| `StoppointSets.StoppointSet.Remove` | src/uriscv/stoppoint.cc:52-64 | list and map lose it, and nothing else |
| `StoppointSets.StoppointSet.SetEnabled` | src/uriscv/stoppoint.cc:71-77 | changes one setting, seen through both |
| `StoppointSets.StoppointSet.Find` | src/uriscv/stoppoint.cc:19-23 | the stoppoint that starts at an address, or none iff there is none |
| `StoppointSets.StoppointSet.Probe` | src/uriscv/stoppoint.cc:79-103 | one ordered lookup and a step back find what a linear scan for an enabled match finds |
| `SymbolTables.Search` | src/uriscv/symbol_table.cc:256-280 | halving a sorted table finds what scanning it finds |
| `SymbolTables.ProbeTable` | src/uriscv/symbol_table.cc:210-221 | functions first, then objects, as by scanning |
| `SymbolTables.ProbeIs` | src/uriscv/symbol_table.cc:210-221 | a probe finds a function that has the address, else an object that has it, else nothing |
| `SymbolTables.BackpatchKeeps` | src/uriscv/symbol_table.cc:152-161 | stretching symbols without a size keeps the table sorted and every position found |
| `SymbolTables.BackpatchFills` | src/uriscv/symbol_table.cc:152-161 | a symbol of one word gets all the room up to the next; no other changes |
| `Relocation.RelocationIsFaithful` | src/frontends/qriscv/debug_session.cc:422-446 | the relocated set is well formed, and each member follows an old one in that way, with its id, mode, setting and length |
| `Relocation.MovedFollows` | src/frontends/qriscv/debug_session.cc:427-444 | a stoppoint whose symbol has exactly one namesake goes to its start plus the old offset; every other one stays |
| `Relocation.SurvivesIff` | src/frontends/qriscv/debug_session.cc:422-446 | a stoppoint survives if and only if its new range is clear of those kept before it |
| `Relocation.NothingIsLost` | src/frontends/qriscv/debug_session.cc:422-446 | if the new ranges are disjoint all survive in order |
| `Relocation.RelocateStoppoints` | src/frontends/qriscv/debug_session.cc:422-446 | the loop fills a new set with exactly that |

## Left out

- Flash, printer and network devices: the flash device repeats the disk's buffer with one coordinate, the others are simpler than the terminal or need the host.
- 64-bit wrap-around of the clock: it is a natural number; setting its halves from outside and the faulty low half setter are not part of this model.
- The controller's register addresses and the bits in which routes and priorities are stored are not part of this model.
- Instruction semantics in the machine: `Machine` leaves open what an instruction, seeing board, clock and interval timer, does to its processor's registers and which requests a device store makes; it models what instructions do to clock, timer, controller and sleep. Exception entry, interrupt acceptance and privilege modes are not part of this model.
- Simulators.Machine.Step: does not model stop requests; breakpoints, suspects and traces are not part of this model, and only the pause a sleeping processor asks for ends the loop early.
- Processors and controller inside `Simulators.Machine` are values; the classes `Processor` and `InterruptController` are verified on their own against the same functions.
- Zero delays: that callbacks ask for at least one tick is a hypothesis of the runs; it is proved for the terminal and, by `DiskIsPrompt`, the disk, and `RetiresIff` says exactly what breaks without it.
- Device runs: the run theorems of terminal and disk keep the route of the device's own line as it is and leave open what other devices do; drive and plain drive are given the same completion times, which the buffer does shorten.
- Interval timer mask bits: the controller sets one bit and clears another, so the wire invariant says nothing of them.
- DiskRefinement.DiskIsPrompt: one direction only; outside `Unhurried` a delay is positive exactly when its wrapped sum is, which says no more than the formula.
- Dma.Bus.DmaFetch: reads memory only; a transfer from device registers, which the bus would carry out, is not part of this model.
- Dma.Bus.DmaStore: writes memory only, likewise.
- Disk images whose offsets pass 31 bits and TLB indexes out of range, which the code does not check, are preconditions.
- Tlbs.RandomTick: does not model the write to another register that the RANDOM register's wrap makes by mistake.
- BADVADDR and the TLB registers aside, `Tlbs.Mapper` holds no processor state; TLB signals and access traces are omitted.
- Big-endian hosts: byte order is that of a little-endian host.
- The lock word is a word of RAM, so that the swaps of the lock do not fault; and release by a processor that does not hold the lock is not part of this model.
- Stoppoint and symbol ids and counts do not wrap at 2^32. Ranges that relocation would push past the end of memory are excluded, as the code asserts.
- Symbol files, name maps and sorting: tables are given sorted, and lookups by name filter the tables.
- Stoppoint listing by range and as text are not part of this model.
- JSON read from a stream is a character sequence; characters are compared by code. Streams that end in the middle of a parse are texts that end there.
- Configuration files: reading and writing the file itself is omitted, and the data directory, fixed when the program is built, is a constant without double quotes. `stoul` and `sscanf` are modelled as the C library specifies them.
- Status strings and status change signals of devices and processors are omitted.
