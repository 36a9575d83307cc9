# The DMX UART driver of Blizzard Bridge, modelled and proved

The bridge moves DMX512 between a serial line, Art-Net and sACN. Its UART driver is an ESP32 driver
whose interrupt handler was extended to send and receive DMX on one port, next to the driver's own
buffered receive and transmit paths. This project models those paths as state machines at the grain
at which interrupts and tasks can be interleaved, models the code that updates the driver's fields in
place as classes, and proves what whole runs keep. `dafny verify dfyconfig.toml` checks all of it.

## Files

| file | content |
|---|---|
| `Common.dfy` | machine integers, shared constants |
| `Runs.dfy` | runs of any step function |
| `DmxPort.dfy` | the DMX port: state, one handler iteration, task steps, and the class `DmxUart` |
| `DmxTransmitter.dfy` | what the sender puts on the wire in every run |
| `DmxReceiver.dfy` | the receiver against a packet parser; loopback |
| `DmxFields.dfy` | what every run does to the fields that both directions and the tasks share; receiving after sending |
| `RxQueue.dfy`, `RxTheorems.dfy` | buffered receive on two cores, the handler's RX arm in steps from its status read to its flag; theorems over runs |
| `RxDriver.dfy` | class `RxPort`: the handler's RX arm, `uart_read_bytes`, `uart_flush` |
| `TxQueue.dfy`, `TxTheorems.dfy` | buffered transmit, one step per turn of the drain loop; theorems over runs |
| `TxDriver.dfy` | class `TxPort`: `uart_tx_all` with a ring buffer, the TXFIFO_EMPTY arm |
| `TxDirect.dfy` | `uart_tx_all` without a ring buffer |
| `Artnet.dfy`, `Sacn.dfy`, `Baud.dfy` | packets and the baud rate divisor |

In each machine a `State` holds the driver's fields, the hardware they depend on, and histories (what
was written, what arrived). `Step` is one event; `Run` a sequence of events in any order. A method of
a class states its new state as a function of the old one that is made of the machine's steps. The
objects `RxPort`, `TxPort` and `DirectPort` also carry the claim that some run from an installed port
leads to them (`Valid()`), so what holds of all runs holds of them.

## What holds, and what does not

* **Sender.** Once in step, every run writes DMX512-A frames (section 8 of ANSI E1.11) and nothing
  else, each slot as it stands in the buffer when it is sent; 516 serviced interrupts, from wherever
  in a frame, are 514 bytes and lead back there; the baud rate changes only after TX_DONE.
* **Starting.** `uart_enable_tx_intr` turns the interrupt on before it sets its two globals, so
  interrupts inside the call may write bytes of their own and move the phase. After those comes at most
  one frame that may be cut short, lack its break or carry anything, then whole frames. The wire is
  framed from the call on in every run if and only if what was written inside the call is framed and,
  when it returns, exactly one transmit interrupt is on and writes next what the frame calls for next.
  If no transmit interrupt is serviced inside the call and no break received, that is: the first,
  breakless frame is kept if and only if TX_DONE was masked. `uart_driver_install` leaves it enabled.
* **Stopping.** `changeDirectionDMXUart(RECEIVE)` silences the port for good if and only if every wait
  for TX_DONE, under way at the call or begun by an interrupt inside it, ends inside it; if no transmit
  interrupt is serviced inside it, if and only if TX_DONE is masked at the call. Otherwise a frame goes
  out in the receive direction. A break received inside the call is enough.
* **Receiver.** It refines a packet parser for every line history, and it undoes the sender: from any
  point of a run, and from any start, each whole frame leaves the receiver with the values that the
  sender's buffer had when it sent them. A silent port that is switched to receive obeys the parser if
  and only if no other port has set `_tx_running` (the `if` in `uart_enable_tx_intr` has no braces), no
  stash is left from sending, and its receive interrupt is on. From installation on the last two hold
  in every run if and only if the ring has refused no byte while the port was sending; then a port that
  has sent obeys the parser after a stop with TX_DONE masked, at the rate of the slots.
* **Shared fields.** While the port sends, its buffer is what tasks wrote last, so a receiver gets what
  the sender's tasks had written to each slot when it went out. The port is off the rate of the slots
  if and only if a break went out, or it was off it to begin with, and neither a start code nor a
  switch to receive has come since. An interrupted switch can leave a silent receiver at 88000 baud.
* **Buffered receive.** Under every interleaving on two cores, flush aside, the bytes come out in
  order, none lost, none twice. `rx_buffered_len` is exact in every run, flushes included, and negative
  only while the handler is between its send and its addition. On one core without a flush the port
  never stalls; a flush, or a second core, can strand the stash of a port with a ring of any size, and
  then the port is dead for good. The stranding steps are characterised exactly.
* **Flush on two cores.** The handler may have read its status before `uart_flush` masks the interrupt.
  The flush leaves the ring empty in every run if and only if no such activation can still push.
  Otherwise bytes stay in the ring, and they may be bytes that never arrived, since the flush empties
  the hardware FIFO behind the handler's count. Order and count survive this too.
* **Buffered transmit.** The stream is preserved, `tx_len_tot` is what is left of the current message,
  the hardware FIFO never overflows, the drain loop ends, and no wake-up is lost, break messages
  included. Breaks are requested where messages end. The handler returns from an
  activation if and only if no break is pending at it; otherwise it spins for ever on a status word
  that it does not read again. A message with a break, sent from rest, is safe from that in every run
  if and only if it is longer than the FIFO and no longer than one chunk, half an item.
* **Transmit without a ring.** The token is never lost and every wait is answered, as long as nobody
  else enables TXFIFO_EMPTY. If somebody does, the next message can be finished if and only if it fits
  the FIFO.
* **Packets.** An Art-Net node hears its own universe if and only if the low byte is 0 or 1, since the
  parser writes `&& 0xFF` for `& 0xFF`. The three sACN length fields nest for every slot count; the
  property count is right only for 256 and 512 slots, for the same reason. A receiver reads back
  everything else, if it takes "ASC-E1.31" for the packet identifier; the standard's is "ASC-E1.17"
  (section 5 of ANSI E1.31), so one that goes by it reads no packet.

Where comments and code differ, the model follows the code: `dmx_sACN.c:153` says sequence number 0 is
not sent, but the increment of 255 wraps to it.

## Model

| member | source | states |
|---|---|---|
| DmxPort.HandleIsRun | main/modified-drivers/uart.c:520-883 | one activation of the handler is a run of single services over its first readings, and exactly as many as have a status bit raised with no service before the last that ends in a wait for TX_DONE |
| DmxPort.DmxUart.constructor | main/modified-drivers/uart.c:1198-1215 | the port starts idle with TX_DONE, RXFIFO_FULL and break detection enabled |
| DmxPort.DmxUart.OnTxDone | main/modified-drivers/uart.c:523-534 | the TX_DONE arm: break to start, data to break, TXFIFO_EMPTY back on in every phase |
| DmxPort.DmxUart.OnTxEmpty | main/modified-drivers/uart.c:537-579 | the TXFIFO_EMPTY arm in every phase, and when it returns from inside |
| DmxPort.DmxUart.OnDmxByte | main/modified-drivers/uart.c:717-770 | the receive switch writes the buffer in place |
| DmxPort.DmxUart.ServiceOne | main/modified-drivers/uart.c:520-820 | one loop iteration: which arm wins, for any status bits |
| DmxPort.DmxUart.Interrupt | main/modified-drivers/uart.c:515-883 | the handler's loop over fresh status words services the readings up to the first with no bit raised, or up to an early return |
| DmxPort.DmxUart.EnableTxIntr | main/modified-drivers/uart.c:330-343 | enable, phase and `_tx_running` |
| DmxPort.DmxUart.DisableTxIntr | main/modified-drivers/uart.c:320-328 | phase, `_tx_running` and mask |
| DmxPort.DmxUart.ChangeDirection | main/dmx_uart.c:108-123 | the direction switch as a change of the shared state |
| DmxPort.DmxUart.SetData | main/dmx.c:206-215 | a bounds-checked write to the buffer that the handler shares |
| DmxTransmitter.SyncedStep | main/modified-drivers/uart.c:523-578 | hand-over: exactly one transmit interrupt stays enabled, the one the phase calls for; a byte is written exactly when the 516-step cycle says so and is the one the frame calls for, slots read at that moment |
| DmxTransmitter.TransmitRun | main/modified-drivers/uart.c:523-578 | every run from a state in step continues the frame where it stood; the number of bytes follows from the number of interrupts serviced, so the sender does not stall |
| DmxTransmitter.FramesFromIsWhole | main/modified-drivers/uart.c:544-573 | such a log is whole frames (break at 88000, start code and 512 slots at 250000) and a prefix of one |
| DmxTransmitter.OneFramePer516Interrupts | main/modified-drivers/uart.c:544-573 | 516 serviced interrupts, wherever in a frame they begin, send 514 bytes that fit there and lead back to the same place; from a frame's start they are that frame |
| DmxTransmitter.BaudChangesWhenIdle | main/modified-drivers/uart.c:547-567 | no byte is in flight when the rate changes |
| DmxTransmitter.OnlyFirstFrameMayBeCut | main/modified-drivers/uart.c:330-343 | from a start in any state, with any interrupts in both gaps of the call: what those wrote, then at most a frame's length of anything, then whole frames; if the call returns with the phase at START, the frame lacks only its break and perhaps its end |
| DmxTransmitter.FramedFromIff | main/modified-drivers/uart.c:330-343 | for any interrupts inside the call and any index p of a frame: every later run continues a frame from p on if and only if the bytes of the call do and the port it returns to has one transmit interrupt on, at the right phase, slot and rate |
| DmxTransmitter.FirstFrameIsKeptIffDoneMasked | main/modified-drivers/uart.c:1204-1209 | so with no transmit interrupt serviced inside the call and the phase still START the first frame is kept if and only if TX_DONE was masked |
| DmxTransmitter.StartCodeInGap | main/modified-drivers/uart.c:330-343 | two services in the first gap of the call send a start code of their own, and the wire is not framed |
| DmxTransmitter.StopStaysSilentIffDoneMasked | main/dmx_uart.c:118-123 | an uninterrupted stop stays silent in every run if and only if TX_DONE is masked at the call |
| DmxTransmitter.RestartsWithoutBreak | main/modified-drivers/uart.c:523-578 | otherwise TX_DONE changes the enables alone, one service leaves the idle phase and the next writes a start code without a break |
| DmxTransmitter.InstalledIsUnsafe | main/modified-drivers/uart.c:1204-1209 | as installed the port keeps neither its first frame in every run nor silence after a stop |
| DmxTransmitter.InterruptedStopSilencesIff | main/modified-drivers/uart.c:320-328 | with anything between the statements of the call: it silences the port if and only if every wait for TX_DONE, under way or begun inside it, ends inside it |
| DmxTransmitter.StopGoesOn | main/dmx_uart.c:118-123 | interrupts between the rate and the phase go on with the frame where it stood |
| DmxTransmitter.QuietStopSilencesIff | main/modified-drivers/uart.c:320-328 | with no transmit interrupt serviced inside it: if and only if TX_DONE is masked, and nothing is written inside |
| DmxTransmitter.BreakInsideStopRestarts | main/modified-drivers/uart.c:686-706 | a break received inside the call, then one interrupt, and a masked sender goes on sending |
| DmxTransmitter.OnlyMaskStopsSender | main/modified-drivers/uart.c:523-578 | no run without the mask of uart_disable_tx_intr turns both transmit interrupts off |
| DmxReceiver.ReceiverRefinesParser | main/modified-drivers/uart.c:686-770 | for every line history the buffer is what the packet parser says |
| DmxReceiver.SegmentHeard | main/modified-drivers/uart.c:714-770 | phase, slot and buffer after a break and any bytes; longer packets are cut at 513 and never leave the buffer |
| DmxReceiver.ReceivesAfterSwitch | main/dmx_uart.c:118-123 | after a switch with TX_DONE masked, at whatever rate, any status readings before its mask and after it leave the parser's buffer and a port that listens at 250000 baud, unless a TXFIFO_EMPTY is among the former; nothing is stored before a break |
| DmxReceiver.ReceivesIffNotDeaf | main/modified-drivers/uart.c:339-341 | the exact condition under which an idle, silent port obeys the parser |
| DmxReceiver.RefusedByteDeafens | main/modified-drivers/uart.c:712-819 | a byte that the ring refuses while the port sends makes the port deaf after the switch to receive |
| DmxReceiver.Loopback | main/modified-drivers/uart.c:544-770 | from any state of a sender in step and of a listening receiver: after each complete frame the receiver holds, slot by slot, what the sender's buffer held at the moment the slot was written |
| DmxReceiver.LoopbackFromStart | main/modified-drivers/uart.c:330-770 | the same from any start, with any interrupts inside the call, for every whole frame after the one then under way |
| DmxReceiver.InterruptedStopStoresWithoutBreak | main/modified-drivers/uart.c:320-328 | interrupts between the statements of uart_disable_tx_intr make the receiver store a byte without a break |
| DmxReceiver.RdmPacketEnds | main/modified-drivers/uart.c:755-766 | the RDM phase counts to 513 bytes and leaves the buffer alone |
| DmxFields.OnlyRefusalCloses | main/modified-drivers/uart.c:711-819 | from installation on, in every run of both directions, the receive interrupt is on and the flag clear if and only if the ring has refused no byte while sending |
| DmxFields.RaisedFlagMasks | main/modified-drivers/uart.c:811-818 | behind a raised flag the next receive interrupt takes nothing and masks itself |
| DmxFields.ReceivesAfterSending | main/dmx_uart.c:108-123 | a port that has sent, with no byte refused, and is stopped with TX_DONE masked obeys the parser at the rate of the slots |
| DmxFields.BufferIsLastWritten | main/dmx.c:206-215 | while the port sends, each slot is what a task wrote to it last, whatever is serviced |
| DmxFields.WritesAreDelivered | main/modified-drivers/uart.c:544-770 | after each whole frame a listening receiver holds what the sender's tasks had written to each slot when it was sent |
| DmxFields.RunningIsLastCall | main/modified-drivers/uart.c:320-343 | _tx_running is what the last call set it to, on any port |
| DmxFields.OtherPortDeafens | main/modified-drivers/uart.c:339-341 | a listening port stores nothing after another port's transmit interrupt is enabled |
| DmxFields.PhasesInUse | main/modified-drivers/uart.c:523-770 | the RDM and MAB phases are never entered |
| DmxFields.OffRateIff | main/modified-drivers/uart.c:544-567 | in every run, exactly when the port is off the rate of the slots |
| DmxFields.StopSetsRate | main/dmx_uart.c:118-123 | an uninterrupted stop with TX_DONE masked leaves 250000 baud in every later run, whatever rate it was called at |
| DmxFields.StopCanLeaveBreakRate | main/dmx_uart.c:118-123 | interrupts inside the call can leave a silent port at 88000 baud |
| RxQueue.RunKeeps | main/modified-drivers/uart.c:519-1140 | every run of handler, readers and flush on two cores, a handler that a flush overtakes included, keeps pointers, count and order |
| RxTheorems.ActivationIsServed | main/modified-drivers/uart.c:712-819 | the steps of one activation in a row are the RX arm in one piece: the FIFO ends in the ring, or in the stash with the interrupt masked, or stays behind a raised flag with the interrupt masked |
| RxTheorems.OnlyResetsLose | main/modified-drivers/uart.c:779-825 | an overflow or the end of a flush loses what is in the hardware FIFO, a read behind it adds what an empty FIFO reads as, and no other step loses or adds a byte |
| RxTheorems.OffOnlyWhileFull | main/modified-drivers/uart.c:795-817 | in every run the receive interrupt is off only while the flag says full or is about to, or its holder is about to turn it on |
| RxTheorems.ReceiveRefinesFifo | main/modified-drivers/uart.c:776-1084 | taken, held item, ring, stash and hardware FIFO are the bytes that arrived, in order; a reader's buffer is the part it took |
| RxTheorems.ScheduleIndependence | main/modified-drivers/uart.c:1026-1084 | of two runs with the same arrivals, one takes a prefix of what the other takes, whatever the scheduling and the item boundaries |
| RxTheorems.CountConserved | main/modified-drivers/uart.c:1045-1135 | rx_buffered_len is what is unread plus what is still to be subtracted less what is still to be added; never negative outside the handler |
| RxTheorems.CountCanBeNegative | main/modified-drivers/uart.c:795-806 | a run on two cores that makes it -1 |
| RxTheorems.FlushEmptiesIff | main/modified-drivers/uart.c:1103-1140 | a flush leaves the ring empty in every run if and only if no activation that read its status before the mask can still push |
| RxTheorems.FlushLeavesNothing | main/modified-drivers/uart.c:1103-1140 | then nothing is unread when it ends, and the count is what readers still owe less what the handler has still to add |
| RxTheorems.FlushCanInvent | main/modified-drivers/uart.c:779-784 | a run in which a flush empties the FIFO behind the handler's count and leaves a byte that never arrived |
| RxTheorems.ReachableStep | main/modified-drivers/uart.c:1063-1137 | exactly two steps strand the stash |
| RxTheorems.NeverStallsOnOneCore | main/modified-drivers/uart.c:776-1084 | on one core and without a flush the stash stays reachable in every run |
| RxTheorems.StallIsForever | main/modified-drivers/uart.c:812-818 | once stranded, no event ever takes another byte |
| RxTheorems.FlushCanStall | main/modified-drivers/uart.c:1105-1137 | for a ring of any size, a run on one core in which a flush strands the stash |
| RxTheorems.TwoCoresCanStall | main/modified-drivers/uart.c:795-801 | for a ring of any size, a run without flush in which a reader on the other core does |
| RxDriver.ReadsCompose | main/modified-drivers/uart.c:1038-1083 | a read of n and one of m are one read of n + m, for any item boundaries and also when bytes run out |
| RxDriver.RxPort.constructor | main/modified-drivers/uart.c:1168-1182 | the installed receive state |
| RxDriver.RxPort.DrainFifo | main/modified-drivers/uart.c:779-784 | the hardware FIFO is copied into rx_data_buf in order |
| RxDriver.RxPort.OnRxInterrupt | main/modified-drivers/uart.c:776-819 | the RX arm is a step of the model: ring, or stash and flag |
| RxDriver.RxPort.ReceiveItem | main/modified-drivers/uart.c:1040-1044 | any non-empty prefix of the ring becomes the held item |
| RxDriver.RxPort.CopyOut | main/modified-drivers/uart.c:1053-1062 | as much of the held item as fits is copied |
| RxDriver.RxPort.ReturnAndResend | main/modified-drivers/uart.c:1063-1077 | the item goes back and the stash into the ring if it fits |
| RxDriver.RxPort.ReadBytes | main/modified-drivers/uart.c:1026-1084 | returns exactly the first deliverable bytes up to the length, leaves the others queued and the rest of the buffer alone |
| RxDriver.RxPort.Flush | main/modified-drivers/uart.c:1094-1140 | takes everything but a stash behind an empty ring; the flag survives exactly then, and the port is stalled exactly then; the count is what readers owe |
| TxQueue.RunKeeps | main/modified-drivers/uart.c:602-984 | every run keeps the stream, the parse of the ring and the message boundary |
| TxQueue.TakeDesc | main/modified-drivers/uart.c:614-626 | with no message under way the next item is the descriptor of the next message |
| TxQueue.TakeChunk | main/modified-drivers/uart.c:627-632 | within a message it is a chunk, and none is in hand, so none is lost |
| TxTheorems.TransmitPreservesStream | main/modified-drivers/uart.c:602-984 | written, in hand, in the ring and still to come are all messages in order; tx_len_tot is the unsent part of the current one; breaks included |
| TxTheorems.DrainLoopEnds | main/modified-drivers/uart.c:607-676 | every turn leaves the loop, takes an item or writes a byte |
| TxTheorems.NoLostWakeUp | main/modified-drivers/uart.c:581-684 | in every run, breaks included, the interrupt is off only if all that the last enable covered has gone out, or a break is going out whose end turns it on |
| TxTheorems.BreaksEndMessages | main/modified-drivers/uart.c:647-664 | in every run a break is requested only with the last byte of a message, and whenever one is complete and the flag is set |
| TxTheorems.FifoNeverOverflows | main/modified-drivers/uart.c:602-646 | in every run the FIFO holds at most 128 bytes and has the free places the loop counts on |
| TxTheorems.FullFifoLosesWakeUp | main/modified-drivers/uart.c:602-607 | serviced with a full FIFO the interrupt stays off, whatever waits |
| TxTheorems.HandlerReturnsIff | main/modified-drivers/uart.c:586-682 | an activation of TXFIFO_EMPTY can end if and only if no break is pending at it |
| TxTheorems.BreakMessageSpinsIff | main/modified-drivers/uart.c:581-684 | a message with a break sent from rest keeps clear of the spin in every run if and only if it is longer than the FIFO and at most half an item; the same with every interrupt waiting for the FIFO to run low |
| TxDriver.CutKeepsData | main/modified-drivers/uart.c:977-983 | the chunks are the message, none is empty and none exceeds half an item |
| TxDriver.TxPort.constructor | main/modified-drivers/uart.c:1162-1185 | the installed transmit state |
| TxDriver.TxPort.TxAll | main/modified-drivers/uart.c:956-984 | one descriptor and the chunks are appended, the interrupt is on and its enable covers them all; size 0 changes nothing |
| TxDriver.TxPort.TakeNext | main/modified-drivers/uart.c:609-632 | what a received item does to the fields |
| TxDriver.TxPort.SendOut | main/modified-drivers/uart.c:641-674 | bytes go out one by one, the item is returned when used up, a break is requested where due |
| TxDriver.TxPort.DrainLoop | main/modified-drivers/uart.c:607-676 | exactly min(room, available) bytes of the stream go out, and the loop ends |
| TxDriver.TxPort.OnTxEmpty | main/modified-drivers/uart.c:581-682 | one activation fills the FIFO up, never over, or takes all that is available; the interrupt is left on if and only if there was room and something to send |
| TxDirect.TokenAndStreamKept | main/modified-drivers/uart.c:985-1003 | the token is in one place, every wait is answered, the handler never spins, and exactly what was asked for goes out |
| TxDirect.FillsUp | main/modified-drivers/uart.c:928-940 | a fill leaves the FIFO full or nothing to write |
| TxDirect.StrayEnableStarves | main/modified-drivers/uart.c:589-601 | after a stray enable of TXFIFO_EMPTY, the next message can be completed in some run if and only if it fits the FIFO |
| TxDirect.DirectPort.constructor | main/modified-drivers/uart.c:1162-1185 | the installed state |
| TxDirect.DirectPort.FillFifo | main/modified-drivers/uart.c:930-940 | the FIFO takes the first bytes that fit |
| TxDirect.DirectPort.AwaitToken | main/modified-drivers/uart.c:589-596 | a wait is answered by a run of the machine that gives the token back |
| TxDirect.DirectPort.TxAll | main/modified-drivers/uart.c:985-1005 | exactly the source goes out in order, for any FIFO occupancy |
| Artnet.RoundTrip | main/dmx_artnet.c:290-435 | what any node does with any packet sent: 512 slots taken, slot 0 kept, or nothing |
| Artnet.AnyPacket | main/dmx_artnet.c:87-400 | for every packet, slot by slot: accepted exactly if it is ArtDmx for a receiving node's universe with all its slots there, then slot k is byte 17 + k up to the length read, and every other slot is kept |
| Artnet.OtherOutcomes | main/dmx_artnet.c:87-125 | exactly when the id, the opcode or the direction turns a packet away, and what is said of it |
| Artnet.SentByIndex | main/dmx_artnet.c:290-435 | each header byte and each slot of a sent packet; the version goes out low byte first |
| Artnet.SameUniverseIff | main/dmx_artnet.c:380-388 | a node hears its own universe if and only if the low byte is 0 or 1 |
| Artnet.UniversesConflated | main/dmx_artnet.c:380-381 | a node of universe low byte 1 takes packets of other universes |
| Artnet.SlotCountIff | main/dmx_artnet.c:391-392 | when the length field is read right, and what it becomes otherwise |
| Artnet.Node.constructor | main/dmx_artnet.c:408-435 | the header fields |
| Artnet.Node.SendData | main/dmx_artnet.c:290-330 | the packet, byte for byte; nothing when disabled |
| Artnet.Node.ParseData | main/dmx_artnet.c:375-400 | universe test and in-place copy, as the parser that AnyPacket is about |
| Artnet.Node.OnPacket | main/dmx_artnet.c:87-139 | id, opcode and direction tests, as the parser that AnyPacket is about |
| Sacn.LayersNest | main/dmx_sACN.c:129-164 | flags 7 in all layers, distances 22 and 77, one end for all three, at byte 638 if and only if the count is 512 |
| Sacn.PropertyCountIff | main/dmx_sACN.c:174-176 | the property count is slots + 1 if and only if there are 256 or 512 |
| Sacn.ReadsBack | main/dmx_sACN.c:115-178 | a reader that checks every fixed field gets the name, priority, sequence, universe and the values, as many as the count says, if it expects the identifier that is sent |
| Sacn.StandardReadsNothing | main/dmx_sACN.c:30-31 | with the identifier of the standard it reads no packet |
| Sacn.Sender.constructor | main/dmx_sACN.c:115-178 | the packet fields for a slot count and a name |
| Sacn.Sender.SendData | main/dmx_sACN.c:40-71 | the packet, byte for byte, with the start code before the slots |
| Baud.SplitLosslessIff | main/modified-drivers/uart.c:187-190 | the register loses nothing if and only if the divisor has 24 bits |
| Baud.NeverSlower | main/modified-drivers/uart.c:183-203 | the rate read back is not below the rate set |
| Baud.ErrorBound | main/modified-drivers/uart.c:183-203 | it is above it by at most b * b / (N - b) |
| Baud.SettingReadBackIsStable | main/modified-drivers/uart.c:183-203 | setting it again programs the same divisor |
| Baud.Generator.SetBaudrate | main/modified-drivers/uart.c:183-193 | the register, and the rates that fail |
| Baud.Generator.GetBaudrate | main/modified-drivers/uart.c:195-203 | the rate read is the highest one whose divisor is no smaller than the register's; it fails exactly for an empty register |
| Baud.Generator.SetThenGet | main/modified-drivers/uart.c:183-203 | both in a row, for every rate that fits the register |

## Left out

- DmxPort.DmxUart.Interrupt: a service of one status bit is one step; statements of a task on another core come between services, not inside one.
- DmxPort.DmxUart.ServiceOne: bytes in the DMX port's receive FIFO come in the order in which the handler services them; a break that overtakes bytes still in the FIFO is not modelled.
- DmxPort.DmxUart.OnDmxByte: a write past the buffer is dropped and a read past it returns an arbitrary byte; both need an index of 513 that only an interrupted direction switch can produce. The RDM packet is not part of this model.
- DmxPort.DmxUart.EnableTxIntr: as a method it is not interrupted; StartCall and the theorems about it take any interrupts between its statements.
- DmxPort.DmxUart.DisableTxIntr: the same, with StopCall.
- DmxPort.DmxUart.ChangeDirection: the same.
- DmxReceiver.ReceivesAfterSwitch: readings inside the call come after both globals, and a TXFIFO_EMPTY among them is excluded; InterruptedStopStoresWithoutBreak shows what it does.
- TxTheorems.NoLostWakeUp: runs in which TXFIFO_EMPTY comes only with room in the FIFO; FullFifoLosesWakeUp shows why.
- TxDriver.TxPort.OnTxEmpty: a port without break messages; with them the activation is a run of TxQueue.
- TxDriver.TxPort.TxAll: the ring never refuses an item, since the code waits without limit for room; one writer at a time, although tx_mux is given twice (lines 984 and 1004).
- TxDirect.DirectPort.TxAll: a wait ends with the FIFO drained below its threshold and TXFIFO_EMPTY serviced; that this happens is the hardware's part. The break at the end is left out.
- RxDriver.RxPort.ReadBytes: the mutex is free and nothing arrives during the call; calls that are interleaved with the handler and other readers are runs of RxQueue. A timeout is an empty ring.
- RxDriver.RxPort.Flush: the same; that it also resets the transmit FIFO is left out.
- Artnet.Node.ParseData: a packet that would be read or copied past its end, or past the buffer, ends the model with the outcome Overrun.
- Baud.Generator.SetBaudrate: UART_CLK_FREQ and UART_BITRATE_MAX are parameters, and UART_CLK_FREQ << 4 is taken to fit 32 bits.
- Ring buffers, semaphores and queues of FreeRTOS are abstract: a byte ring that hands out any non-empty prefix and takes an item if it fits, an item ring, a token.
- The event queue, pattern detection, frame and parity errors, pin and parameter setup, driver deletion, bit timing and the stop-bit workaround.
- The other Art-Net packets (poll, address, prog), whose handlers copy or ignore fields; the UDP layer.
- blizzard_rdm.c, blizzard_uart.c, blizzard_wdmx.c, the connection manager, the portal and the settings store.
