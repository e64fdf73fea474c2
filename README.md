# A verified model of DxCore's programming stack and core libraries

This project models, in Dafny, the parts of DxCore (the Arduino core for the AVR DA, DB, DD and DU microcontrollers) that turn register traffic into guarantees, and proves what they promise.

- **UPDI NVM driver** (`updi_nvm.dfy`, module `UpdiNvm`). The serialupdi programming stack's NVM-controller drivers, in both copies of `nvm.py`: the P:0, P:2, P:3, P:4 and P:5 classes and the older TinyMega and AvrDx classes. They form one class `NvmUpdi` whose `variant` field picks the generation.
  - The `readwrite` facade is a trace of events.
  - The STATUS register is an endless stream of answers.
  - The `Timeout` objects are one expiry oracle.
  - Every operation's method is proved equal to a specification function. Lemmas about those functions give the command sequences, the polls and the error cases.
- **UPDI transport** (`updi_physical.dfy`, `UpdiPhysical`). The echo-draining `send`, the bounded-retry `receive` and the constructor's break byte. The serial port is a queue of answers.
- **PTC touch library** (`ptc.dfy`, `Ptc`). The node setters, suspend and resume, and the per-node touch state machine with its DA calibration. Also the singly-linked node list and the `ptc_process` scheduler.
- **UART** (`uart.dfy`, `Uart`). The receive and transmit ring buffers with their interrupt handlers, `write`, the pin-set selection and the `printHex` family.
- **USART port multiplexer** (`pinswap.dfy`, `PinSwap`). The USART helpers of `pinswap.c`.
- **USERSIG** (`usersig.dfy`, `UserSig`). The user-row library with its lazily loaded buffer.
- **EEPROM** (`eeprom.dfy`, `Eeprom`). The EEPROM library's cell reference, subscript, `get` and `put`.
- **Flash libraries**. The two Flash libraries share their codes, tables, byte layouts, mapped-pointer arithmetic and an NVM controller whose SPM instruction is an oracle (`flash_nvm.dfy`, `FlashNvm`). On top of that sit the current library (`flash.dfy`, `Flash`) and the older one (`flash_legacy.dfy`, `FlashLegacy`).
- **pinConfigure** (`pin_configure.dfy`, `PinConfigure`). The pin-configuration decoder of `wiring_extra.cpp`.
- **Event library** (`event.dfy`, `EventSystem`). The channel allocator, generators, users and software events.
- **Optiboot** (`optiboot.dfy`, `Optiboot`). The Dx bootloader's reset-cause gate and its STK500 version 1 command loop (Atmel application note AVR061).
- **MAX38903** (`max38903.dfy`, `Max38903`). The Azduino regulator-setting validator.
- **Variant headers**. The pin numbering and analog-channel macros of three variant headers: 48-pin DA/DB (`variant_48pin.dfy`), 64-pin DA/DB (`variant_64pin.dfy`) and 32-pin DU (`variant_32pin_du.dfy`). They share `pins.dfy`.

Code the source runs in place stays imperative in the model:
- Classes hold the state the source updates: registers, buffers, lists and traces.
- Their methods carry `modifies` clauses, loops carry invariants, and methods are proved against specification functions.
- Pure decoding and mapping code is functions and lemmas.

Fixed-width arithmetic is written out where it matters:
- `bv8`, `bv16` and `bv32` for register values;
- explicit masks for C's `uint8_t` and `uint16_t` wrap-around.

## Model

| member | source | states |
|---|---|---|
| UpdiNvm.PollStatus | megaavr/tools/libs/pymcuprog/serialupdi/nvm.py:51-69 | the status poll loop uses one expiry answer per status read, plus one when the deadline expires; a ready or failed result has read at least one status |
| UpdiNvm.DecidesAtFirst | megaavr/tools/libs/pymcuprog/serialupdi/nvm.py:58-66 | a poll that ends the loop lies before the deadline, and a later poll can end it only when the first status read was busy without an error bit |
| UpdiNvm.PollDecides | megaavr/tools/libs/pymcuprog/serialupdi/nvm.py:58-68 | the loop stops at the first status that carries the error bit or neither busy bit, having read exactly that many statuses; when no status before the deadline does so, the result is a timeout |
| UpdiNvm.PollReadyIff | megaavr/tools/libs/pymcuprog/serialupdi/nvm.py:51-69 | the wait, here and in the older nvm.py, reports ready if and only if, before the deadline, the statuses read were busy up to one with neither the error bit nor a busy bit |
| UpdiNvm.PollFailedIff | megaavr/tools/libs/pymcuprog/serialupdi/nvm.py:568-591 | the wait fails with status s if and only if, before the deadline, the statuses read were busy up to s and s carries an error bit |
| UpdiNvm.ChipEraseLegacyTrace | megaavr/tools/libs/pymcuprog/serialupdi/nvm.py:91-111 | legacy chip erase (P0, P2 at lines 234-253, and TinyMega and AvrDx in the older nvm.py): a controller that never becomes ready gets no command; otherwise exactly one CHIP_ERASE goes between two polls, never NOCMD, and success needs both polls to see a ready controller |
| UpdiNvm.EraseV3Trace | megaavr/tools/libs/pymcuprog/serialupdi/nvm.py:375-398 | P3 and P5 erase: a controller that is not ready gets nothing, and the poll's error is raised; otherwise the preamble and the command are written, and NOCMD follows unless the second poll reported an NVM error |
| UpdiNvm.WriteNvmV3Trace | megaavr/tools/libs/pymcuprog/serialupdi/nvm.py:513-566 | P3 and P5 write_nvm (P5 at lines 896-949): buffer clear, load, commit and NOCMD, each after a ready controller; a failed poll stops the sequence, and success needs all three polls |
| UpdiNvm.WriteNvmV0Trace | megaavr/tools/libs/pymcuprog/serialupdi/nvm.py:168-221 | P0 write_nvm, and the older TinyMega one as its bulkwrite-0 case, for every controller response: the buffer clear is sent if and only if bulkwrite is 0, the address is 0x4000 or 0x8000, or the access is bytewise; the final poll runs if and only if bulkwrite is not 1; the events sent are that sequence cut right after the first poll that is not ready, and the write succeeds exactly when no poll failed, otherwise it raises |
| UpdiNvm.WriteNvmV1Trace | megaavr/tools/libs/pymcuprog/serialupdi/nvm.py:300-334 | P2 and P4 write_nvm, and the older AvrDx one as its bulkwrite-0 case, for every controller response: FLASH_WRITE is issued if and only if bulkwrite is 0 or the address starts a 32 KiB section; the final poll and NOCMD are skipped exactly when bulkwrite is 1; the events sent are that sequence cut right after the first poll that is not ready, so NOCMD never follows a failed poll, and the write succeeds exactly when nothing was cut |
| UpdiNvm.WriteFuseV0Trace | megaavr/tools/libs/pymcuprog/serialupdi/nvm.py:138-166 | write_fuse of P0 and of the older TinyMega: ADDRL and ADDRH take the address's low and high byte and DATAL the first data byte, in that order, then WRITE_FUSE, all after a ready controller, and then the final poll; the outcome is Ok exactly when both the first poll and the poll after the command (and its pause) are ready, and any other outcome raises PymcuprogError |
| UpdiNvm.WriteFuseV0Empty | megaavr/tools/libs/pymcuprog/serialupdi/nvm.py:138-166 | write_fuse with an empty data list loads the address and then raises before DATAL and the command |
| UpdiNvm.FuseWindowByteLost | megaavr/tools/libs/pymcuprog/serialupdi/nvm.py:113-128 | P0 write_flash as written raises before any transaction on a single byte at 0x1280..0x128A; the corrected write_flash hands the byte to write_fuse, which loads the address |
| UpdiNvm.WriteFlashP0Fuse | megaavr/tools/libs/pymcuprog/serialupdi/nvm.py:118-121 | corrected (see ## Findings): P0 write_flash of a single fuse-window byte is write_fuse with a 2 ms pause: poll, ADDRL, ADDRH, DATAL, WRITE_FUSE, pause, poll, stopping after the first poll if it is not ready; Ok exactly when both polls are ready, PymcuprogError otherwise |
| UpdiNvm.WriteFlashP0Bytewise | megaavr/tools/libs/pymcuprog/serialupdi/nvm.py:122-126 | P0 write_flash of odd-length data of at most 256 bytes, outside the fuse case: bytewise load with bulkwrite forced to 0, so always the buffer clear and the final poll; the events sent are a prefix of that sequence, all of it on success and ending at the failing poll otherwise |
| UpdiNvm.WriteFlashP0Access | megaavr/tools/libs/pymcuprog/serialupdi/nvm.py:127 | P0 write_flash of any other data: word load with the caller's bulkwrite, the buffer clear with bulkwrite 0 or at 0x4000 or 0x8000, the final poll unless bulkwrite is 1; the events sent are a prefix of that sequence, all of it on success and ending at the failing poll otherwise; with bulkwrite 1 away from 0x4000 and 0x8000 it cannot fail |
| UpdiNvm.WriteEepromV1Trace | megaavr/tools/libs/pymcuprog/serialupdi/nvm.py:264-289 | write_eeprom of P2, P4 and AvrDx, and the older AvrDx write_fuse, which is write_eeprom: poll, EEPROM_ERASE_WRITE, data, poll, NOCMD; Ok exactly when both polls are ready, a plain Exception otherwise |
| UpdiNvm.BaseNotImplemented | megaavr/tools/libs/pymcuprog/serialupdi/nvm.py:21-49 | every operation of the base class, in both copies of nvm.py, raises NotImplementedError and touches nothing |
| UpdiNvm.EepromWritesBytewise | megaavr/tools/libs/pymcuprog/serialupdi/nvm.py:130-136 | every generation, TinyMega and AvrDx of the older nvm.py included, loads EEPROM data bytewise and in one piece: a successful write_eeprom has written exactly the data at the address and made no word load |
| UpdiNvm.NvmUpdi.constructor | megaavr/tools/libs/pymcuprog/serialupdi/nvm.py:16-19 | a driver of the given generation starts with an empty trace and no status read |
| UpdiNvm.NvmUpdi.TimeoutExpired | megaavr/tools/libs/pymcuprog/serialupdi/nvm.py:58 | one expiry question consumes the next answer of the expiry oracle and changes nothing else |
| UpdiNvm.NvmUpdi.ReadStatus | megaavr/tools/libs/pymcuprog/serialupdi/nvm.py:59 | one STATUS read returns the next status answer and changes nothing else |
| UpdiNvm.NvmUpdi.WaitReady | megaavr/tools/libs/pymcuprog/serialupdi/nvm.py:58-68 | the poll loop leaves the bus and returns the result that PollStatus gives for the same answers |
| UpdiNvm.NvmUpdi.PollOnce | megaavr/tools/libs/pymcuprog/serialupdi/nvm.py:58-66 | one pass of the loop either ends the wait with the answer PollStatus gives for the whole poll (timed out, write error, or ready), or consumes one tick and one status read, PollStatus then going on from there |
| UpdiNvm.NvmUpdi.WaitFlashReady | megaavr/tools/libs/pymcuprog/serialupdi/nvm.py:51-69 | wait_flash_ready returns True exactly when the status showed ready before the 10 s deadline, and records one poll event |
| UpdiNvm.NvmUpdi.WaitNvmReady | megaavr/tools/libs/pymcuprog/serialupdi/nvm.py:568-591 | wait_nvm_ready returns ready, times out, or fails with an NVM error whose code is status >> 4 |
| UpdiNvm.NvmUpdi.ExecuteNvmCommand | megaavr/tools/libs/pymcuprog/serialupdi/nvm.py:71-78 | execute_nvm_command writes the command to CTRLA, one write and nothing else |
| UpdiNvm.NvmUpdi.ChipEraseLegacy | megaavr/tools/libs/pymcuprog/serialupdi/nvm.py:91-111 | the legacy chip erase leaves the state that ChipEraseLegacySpec, specified by ChipEraseLegacyTrace, gives |
| UpdiNvm.NvmUpdi.EraseV3 | megaavr/tools/libs/pymcuprog/serialupdi/nvm.py:375-398 | the P3/P5 erase sequence leaves the state that EraseV3Spec, specified by EraseV3Trace, gives |
| UpdiNvm.NvmUpdi.WriteNvmV0 | megaavr/tools/libs/pymcuprog/serialupdi/nvm.py:168-221 | P0 write_nvm leaves the state that WriteNvmV0Spec, specified by WriteNvmV0Trace, gives |
| UpdiNvm.NvmUpdi.WriteFuseV0 | megaavr/tools/libs/pymcuprog/serialupdi/nvm.py:138-166 | P0 write_fuse leaves the state that WriteFuseV0Spec, specified by WriteFuseV0Trace, gives |
| UpdiNvm.NvmUpdi.WriteNvmV1 | megaavr/tools/libs/pymcuprog/serialupdi/nvm.py:300-334 | P2/P4 write_nvm leaves the state that WriteNvmV1Spec, specified by WriteNvmV1Trace, gives |
| UpdiNvm.NvmUpdi.WriteEepromV1 | megaavr/tools/libs/pymcuprog/serialupdi/nvm.py:264-289 | P2/P4 write_eeprom leaves the state that WriteEepromV1Spec gives |
| UpdiNvm.NvmUpdi.WriteNvmV3 | megaavr/tools/libs/pymcuprog/serialupdi/nvm.py:513-566 | P3/P5 write_nvm leaves the state that WriteNvmV3Spec, specified by WriteNvmV3Trace, gives |
| UpdiNvm.NvmUpdi.ChipErase | megaavr/tools/libs/pymcuprog/serialupdi/nvm.py:375-398 | chip_erase of the driver's generation (P0 91-111, P2 234-253, P3 375-398, P4 615-634, P5 758-781) agrees with ChipEraseSpec |
| UpdiNvm.NvmUpdi.WriteFlash | megaavr/tools/libs/pymcuprog/serialupdi/nvm.py:466-475 | corrected (see ## Findings): write_flash of the driver's generation (P0 113-128, P2 255-262, P3 466-475) agrees with WriteFlashSpec |
| UpdiNvm.NvmUpdi.WriteEeprom | megaavr/tools/libs/pymcuprog/serialupdi/nvm.py:489-500 | write_eeprom of the driver's generation (P0 130-136, P2 264-289, P3 489-500) agrees with WriteEepromSpec |
| UpdiNvm.NvmUpdi.WriteFuse | megaavr/tools/libs/pymcuprog/serialupdi/nvm.py:502-511 | write_fuse of the driver's generation (P0 138-166, P2 291-298, P3 502-511) agrees with WriteFuseSpec |
| UpdiNvm.NvmUpdi.EraseFlashPage | megaavr/tools/libs/pymcuprog/serialupdi/nvm.py:400-426 | erase_flash_page writes a dummy 0xFF at the page, then FLASH_PAGE_ERASE, within the P3/P5 erase sequence |
| UpdiNvm.NvmUpdi.EraseEeprom | megaavr/tools/libs/pymcuprog/serialupdi/nvm.py:428-448 | erase_eeprom is the P3/P5 erase sequence with EEPROM_ERASE and no preamble |
| UpdiNvm.NvmUpdi.EraseUserRow | megaavr/tools/libs/pymcuprog/serialupdi/nvm.py:450-464 | erase_user_row erases the user row as a flash page and ignores the size |
| UpdiNvm.NvmUpdi.WriteUserRow | megaavr/tools/libs/pymcuprog/serialupdi/nvm.py:477-487 | write_user_row is a flash page write with the default block size |
| UpdiPhysical.Answer | megaavr/tools/libs/pymcuprog/serialupdi/physical.py:123 | a read asking for k bytes gets at most k bytes, a prefix of what the port has ready, and fewer than k only when that is all it has |
| UpdiPhysical.ReceiveSpec | megaavr/tools/libs/pymcuprog/serialupdi/physical.py:113-137 | the receive loop returns at most size bytes and makes at most size + retry reads |
| UpdiPhysical.ReceiveInArrivalOrder | megaavr/tools/libs/pymcuprog/serialupdi/physical.py:113-137 | the bytes received are exactly those that arrived, in arrival order |
| UpdiPhysical.ReceiveStops | megaavr/tools/libs/pymcuprog/serialupdi/physical.py:113-137 | every read either delivers a byte or spends retry budget shared by the whole call, and the call returns short only when the whole budget is spent |
| UpdiPhysical.ReceiveFull | megaavr/tools/libs/pymcuprog/serialupdi/physical.py:113-137 | a port that answers every read at once delivers all size bytes in size reads |
| UpdiPhysical.UpdiPhysicalPort.constructor | megaavr/tools/libs/pymcuprog/serialupdi/physical.py:29-32 | opening the port sends one break byte and drains its echo |
| UpdiPhysical.UpdiPhysicalPort.ReadPort | megaavr/tools/libs/pymcuprog/serialupdi/physical.py:123 | one underlying read takes the port's next answer, truncated to the size asked |
| UpdiPhysical.UpdiPhysicalPort.Send | megaavr/tools/libs/pymcuprog/serialupdi/physical.py:101-111 | send writes the bytes, then reads back as many echoed bytes and discards them |
| UpdiPhysical.UpdiPhysicalPort.Receive | megaavr/tools/libs/pymcuprog/serialupdi/physical.py:113-137 | receive returns the bytes and leaves the port and trace as ReceiveSpec says, with a budget of three retries |
| Ptc.ToInt16 | megaavr/libraries/PTC/src/ptc.c:555 | the int16_t delta is the two's-complement reading of the low 16 bits: in range and congruent to the difference, and equal to it when it already fits |
| Ptc.NibbleIsolation | megaavr/libraries/PTC/src/ptc.c:116-178 | each nibble setter of the register bytes changes only its own nibble, and reading that nibble back gives the value set |
| Ptc.CalibrateDaBounds | megaavr/libraries/PTC/src/ptc.c:808-845 | the AVR DA calibration step either finishes (delta below 4) without touching the capacitors, or leaves them within 0..0x3FF, clamping an underflow to 0 as "too low" and an overflow to 0x3FF as "too high" |
| Ptc.CalibrateDaDirection | megaavr/libraries/PTC/src/ptc.c:813-827 | a successful calibration step moves the capacitors toward balance: a self-capacitance node reading above mid-scale gains compensation and one below loses it; a mutual node does the opposite |
| Ptc.Decide | megaavr/libraries/PTC/src/ptc.c:581-667 | the state machine's next state and reference drift; the drift is -1, 0 or +1 |
| Ptc.StateChangeCounter | megaavr/libraries/PTC/src/ptc.c:673-679 | the change counter is 0 after a change of state and one more (mod 256) after a conversion that keeps the state; only a failing calibration leaves state and counter as they were and marks the node as failed |
| Ptc.TouchDetectEntry | megaavr/libraries/PTC/src/ptc.c:627-658 | TOUCH_DETECT is entered only through the filters: from TOUCH_IN_FLT after touched_detect_nom conversions, from TOUCH_OUT_FLT when the delta climbs back above the touch-in threshold, or from LOW_POWER when low power ends with such a delta |
| Ptc.NoTouchExits | megaavr/libraries/PTC/src/ptc.c:600-615 | NO_TOUCH tests its exits in the source's priority order: large negative delta, touch, reference outside 512 ± the recalibration delta, then the low and high drift filters |
| Ptc.TouchDetectExits | megaavr/libraries/PTC/src/ptc.c:645-652 | TOUCH_DETECT recalibrates after touched_max_nom conversions, or starts releasing when the delta falls below the touch-out threshold |
| Ptc.ReferenceDrift | megaavr/libraries/PTC/src/ptc.c:589-667 | the reference moves by one step at most (16-bit wrap-around): down after drift_down_nom conversions in NT_LOW_FLT, up after drift_up_nom in NT_HIGH_FLT, or tracking in LOW_POWER; a finished calibration sets it to the reading |
| Ptc.Measure | megaavr/libraries/PTC/src/ptc.c:536-546 | failed nodes are skipped; a node with a fresh reading has its data-ready flag cleared and goes through the state machine; any other node is left alone |
| Ptc.AppendAsWrittenCycles | megaavr/libraries/PTC/src/ptc.c:1060-1073 | appending a node that is listed but not last is accepted as written and links the last node back to it, so the walk to the last node never ends |
| Ptc.AppendCheckedTerminates | megaavr/libraries/PTC/src/ptc.c:1042-1056 | after an append that refuses every listed node, the walk from the first node ends at the new last node, which has no successor |
| Ptc.PtcLib.constructor | megaavr/libraries/PTC/src/ptc.c:40-60 | the library starts idle with no nodes, the default state-machine settings and an acquisition period of 20 ms |
| Ptc.PtcLib.SetThresholds | megaavr/libraries/PTC/src/ptc.c:101-112 | a null node is refused; otherwise each non-zero threshold is stored and a zero threshold leaves the old one |
| Ptc.PtcLib.SetResistor | megaavr/libraries/PTC/src/ptc.c:116-132 | a null node is refused; a resistor code above the maximum or a self-capacitance node is a bad argument; otherwise the code goes into the high nibble and nothing else changes |
| Ptc.PtcLib.SetPrescaler | megaavr/libraries/PTC/src/ptc.c:136-147 | a null node is refused; a prescaler outside DEFAULT..DEFAULT+2 is a bad argument; otherwise it goes into the low nibble and nothing else changes |
| Ptc.PtcLib.SetGain | megaavr/libraries/PTC/src/ptc.c:150-164 | a null node is refused; a gain at or above the maximum is a bad argument; otherwise (MAX - gain) goes into the high nibble and nothing else changes |
| Ptc.PtcLib.SetOversamples | megaavr/libraries/PTC/src/ptc.c:166-178 | a null node is refused; an exponent above 6 is a bad argument; otherwise it goes into the low nibble and nothing else changes |
| Ptc.PtcLib.SetChargeShareDelay | megaavr/libraries/PTC/src/ptc.c:180-191 | a null node is refused; a delay above 15 is a bad argument; otherwise it is stored and nothing else changes |
| Ptc.PtcLib.Suspend | megaavr/libraries/PTC/src/ptc.c:201-212 | suspending succeeds and suspends only from idle, and otherwise reports the wrong state and changes nothing |
| Ptc.PtcLib.Resume | megaavr/libraries/PTC/src/ptc.c:214-218 | resuming returns a suspended library to idle and leaves any other state as it was |
| Ptc.PtcLib.GetLastNode | megaavr/libraries/PTC/src/ptc.c:1042-1056 | the walk returns the last node of the list, or null for an empty list |
| Ptc.PtcLib.FindInList | megaavr/libraries/PTC/src/ptc.c:1060-1073 | the walk finds the candidate if and only if it is listed, and otherwise ends at the last node |
| Ptc.PtcLib.AppendNode | megaavr/libraries/PTC/src/ptc.c:1060-1073 | corrected (see ## Findings): a listed node is refused and the list is unchanged; any other node is added at the end with an id one past the last node's (0 for the first), and every other node is unchanged |
| Ptc.PtcLib.ProcessCalibrate | megaavr/libraries/PTC/src/ptc.c:808-845 | ptc_process_calibrate on AVR DA leaves the status and capacitors that CalibrateDa gives, specified by CalibrateDaBounds and CalibrateDaDirection |
| Ptc.PtcLib.ProcessNodeSm | megaavr/libraries/PTC/src/ptc.c:550-680 | ptc_process_node_sm leaves the node that NodeSm gives, specified by the state-machine lemmas; leaving low power releases the low-power node |
| Ptc.PtcLib.ProcessMeasurement | megaavr/libraries/PTC/src/ptc.c:536-546 | ptc_process_measurement leaves the node that Measure gives |
| Ptc.PtcLib.ProcessWake | megaavr/libraries/PTC/src/ptc.c:492-507 | the low-power branch of ptc_process processes the woken node's reading |
| Ptc.PtcLib.ProcessAll | megaavr/libraries/PTC/src/ptc.c:508-514 | after a complete conversion the library is idle and every listed node, in order, has processed its reading |
| Ptc.PtcLib.Schedule | megaavr/libraries/PTC/src/ptc.c:517-528 | a new batch is due once acqPeriod ms have passed (16-bit wrap-around); lastAcqTime then moves on by acqPeriod, and a conversion is requested only when the library is idle |
| Ptc.PtcLib.Process | megaavr/libraries/PTC/src/ptc.c:491-529 | ptc_process hands finished conversions to the state machines, then schedules the next batch |
| Eeprom.WriteMasksInterrupts | megaavr/libraries/EEPROM/src/EEPROM.h:66-73 | every register access of an EEPROM write happens with interrupts masked |
| Eeprom.Stored | megaavr/libraries/EEPROM/src/EEPROM.h:72 | a store changes the addressed cell and no other; a store outside the EEPROM changes no cell |
| Eeprom.SubscriptWraps | megaavr/libraries/EEPROM/src/EEPROM.h:201-203 | the subscript always names a cell of the EEPROM, wraps around it (a negative index counts from the top), and leaves an index already in range alone |
| Eeprom.AddThenSub | megaavr/libraries/EEPROM/src/EEPROM.h:88-93 | adding and then subtracting the same operand gives the cell its value back, wrap-around included |
| Eeprom.IncrementWraps | megaavr/libraries/EEPROM/src/EEPROM.h:124-129 | incrementing 255 gives 0 and decrementing 0 gives 255 |
| Eeprom.PutWritesOnlyChanges | megaavr/libraries/EEPROM/src/EEPROM.h:235-242 | put costs one erase-and-write per byte that changes, and no access at all when the EEPROM already holds the value |
| Eeprom.PutGetRoundTrip | megaavr/libraries/EEPROM/src/EEPROM.h:226-242 | reading back the bytes just put gives the value, and the cells around it are untouched |
| Eeprom.EepromMemory.constructor | megaavr/libraries/EEPROM/src/EEPROM.h:221-223 | an EEPROM of EEPROM_SIZE cells with an empty access trace |
| Eeprom.EepromMemory.Read | megaavr/libraries/EEPROM/src/EEPROM.h:42-47 | reading a cell returns its byte |
| Eeprom.EepromMemory.Write | megaavr/libraries/EEPROM/src/EEPROM.h:53-87 | a write waits for the EEPROM, masks interrupts, issues NONE and EEERWR, stores the byte at its mapped address and restores the status register; only the addressed cell changes |
| Eeprom.EepromMemory.Copy | megaavr/libraries/EEPROM/src/EEPROM.h:50-52 | assigning one cell reference to another writes the source cell's byte |
| Eeprom.EepromMemory.Update | megaavr/libraries/EEPROM/src/EEPROM.h:119-121 | update writes the cell only when the new byte differs; an equal byte causes no access |
| Eeprom.EepromMemory.Compound | megaavr/libraries/EEPROM/src/EEPROM.h:88-117 | a compound assignment reads the cell, combines it with the operand on eight bits, and writes the result back unconditionally |
| Eeprom.EepromMemory.Increment | megaavr/libraries/EEPROM/src/EEPROM.h:124-126 | prefix increment writes the cell plus one, wrapping from 255 to 0 |
| Eeprom.EepromMemory.Decrement | megaavr/libraries/EEPROM/src/EEPROM.h:127-129 | prefix decrement writes the cell minus one, wrapping from 0 to 255 |
| Eeprom.EepromMemory.PostIncrement | megaavr/libraries/EEPROM/src/EEPROM.h:132-136 | postfix increment returns the value before the increment, stores the incremented one with the same register protocol as an assignment, and restores the status register |
| Eeprom.EepromMemory.PostDecrement | megaavr/libraries/EEPROM/src/EEPROM.h:137-141 | postfix decrement returns the value before the decrement, stores the decremented one with the same register protocol as an assignment, and restores the status register |
| Eeprom.EepromMemory.Get | megaavr/libraries/EEPROM/src/EEPROM.h:226-233 | get returns the n bytes from the index on, read through an advancing pointer |
| Eeprom.EepromMemory.Put | megaavr/libraries/EEPROM/src/EEPROM.h:235-242 | put updates each byte of the value in turn: the EEPROM becomes Spliced and the trace holds one write per changed byte |
| EventSystem.ChannelNumber | megaavr/libraries/Event/src/Event.cpp:54-56 | an object's channel number is 255 exactly for Event_empty |
| EventSystem.GetChannel | megaavr/libraries/Event/src/Event.cpp:66-120 | get_channel returns a channel object exactly for numbers 0..9, and it is the one with that number |
| EventSystem.GetChannelRoundTrip | megaavr/libraries/Event/src/Event.cpp:54-120 | every object, Event_empty included, is found again from its own channel number |
| EventSystem.GeneratorChannel | megaavr/libraries/Event/src/Event.cpp:128-182 | get_generator_channel returns the lowest-numbered object holding the generator, and Event_empty only when no object holds it |
| EventSystem.PinGenerator | megaavr/libraries/Event/src/Event.cpp:248 | a pin's generator is 0x40, plus 8 for the odd port of a pair, plus the bit |
| EventSystem.PinGeneratorBits | megaavr/libraries/Event/src/Event.cpp:248 | the source's OR of 0x40, the shifted port bit and the bit equals that sum on eight bits |
| EventSystem.PinGeneratorDecodes | megaavr/libraries/Event/src/Event.cpp:248 | a pin generator lies in 0x40..0x4F, and two pins have the same generator exactly when they have the same bit on the same side of a port pair |
| EventSystem.PortPair | megaavr/libraries/Event/src/Event.cpp:249-286 | each port's pins can drive one pair of channels (PA/PB 0-1, PC/PD 2-3, PE/PF 4-5, PG 6-7), starting at an even channel; a number past PG has none |
| EventSystem.AssignNeverSteals | megaavr/libraries/Event/src/Event.cpp:245-299 | a channel is claimed only if it was free or already held the same generator, only within the port's pair, and every channel in use for something else is left alone |
| EventSystem.AssignIdempotent | megaavr/libraries/Event/src/Event.cpp:245-299 | assigning the same pin a second time returns the same channel and changes nothing more |
| EventSystem.SoftEventStrobesOwnBit | megaavr/libraries/Event/src/Event.cpp:669-708 | channels 0-7 strobe their own SWEVENTA bit and channels 8 and 9 their own SWEVENTB bit; Event_empty writes 248 to SWEVENTB, which strobes neither channel |
| EventSystem.UserOffset | megaavr/libraries/Event/src/Event.cpp:560 | the user register offset is the user number with bit 7 masked off, and equals the user number exactly when bit 7 is clear |
| EventSystem.UserChannelNumberAsWritten | megaavr/libraries/Event/src/Event.cpp:478-484 | get_user_channel_number as written reads the register at the unmasked user number: 0 reads as -1, 1..128 as the channel one below |
| EventSystem.UserChannelNumber | megaavr/libraries/Event/src/Event.cpp:478-484 | the corrected reading takes the register set_user writes: 0 reads as -1, 1..128 as the channel one below |
| EventSystem.UserChannelNumberAsWrittenMisreads | megaavr/libraries/Event/src/Event.cpp:478-484 | after Event3 is connected to user 0x90 (evoutd_pin_pd7 on AVR DB), the corrected reading gives 3 and the reading as written gives -1 |
| EventSystem.UserChannelNumberAgrees | megaavr/libraries/Event/src/Event.cpp:478-484 | for users without the pin-swap flag the two readings agree |
| EventSystem.UserChannelOf | megaavr/libraries/Event/src/Event.cpp:494-550 | a user register holding 0 names no channel, and one holding 1..10 names the channel one below |
| EventSystem.GetChannelSigned | megaavr/libraries/Event/src/Event.cpp:494-550 | get_user_channel returns a channel object exactly for a reading of 0..9, and Event_empty for -1 or anything past 9 |
| EventSystem.Evsys.constructor | megaavr/libraries/Event/src/Event.cpp:4-48 | at start-up every object holds gen::disable and every channel, user and route register is zero |
| EventSystem.Evsys.GetGeneratorChannel | megaavr/libraries/Event/src/Event.cpp:128-182 | get_generator_channel on the objects' current generators returns the first holder of the generator, or Event_empty when there is none |
| EventSystem.Evsys.SetGenerator | megaavr/libraries/Event/src/Event.cpp:202-205 | set_generator stores the generator in the object, for its next start, and writes no register |
| EventSystem.Evsys.SetGeneratorPin | megaavr/libraries/Event/src/Event.cpp:217-227 | set_generator(pin) stores the pin's generator for a pin of the package, and gen::disable for any other number; only that object changes |
| EventSystem.Evsys.AssignGeneratorPinAt | megaavr/libraries/Event/src/Event.cpp:245-299 | assign_generator_pin(port, pin) claims a channel of the port's pair, lower first, as Assigned describes; no register is written |
| EventSystem.Evsys.AssignGeneratorPin | megaavr/libraries/Event/src/Event.cpp:239-243 | assign_generator_pin(pin) is the same on the pin's port and bit; a number past the package gets Event_empty and changes nothing |
| EventSystem.Evsys.Start | megaavr/libraries/Event/src/Event.cpp:716-724 | start writes the object's generator, or gen::disable when state is false, to its channel register; Event_empty writes channel 0's |
| EventSystem.Evsys.Stop | megaavr/libraries/Event/src/Event.cpp:731-733 | stop writes gen::disable to the object's channel register |
| EventSystem.Evsys.SoftEvent | megaavr/libraries/Event/src/Event.cpp:669-708 | soft_event makes exactly one strobe write, the one SoftEventStrobe gives for the object's channel |
| EventSystem.Evsys.SetUser | megaavr/libraries/Event/src/Event.cpp:558-576 | set_user writes the channel number plus one to the masked user register (Event_empty's 255 wraps to 0) and sets the EVOUT route bit for a pin-swap user; the corrected reading then returns the channel |
| EventSystem.Evsys.ClearUser | megaavr/libraries/Event/src/Event.cpp:644-662 | clear_user writes 0 to the masked user register and clears the EVOUT route bit for a pin-swap user; the user then reads as no channel |
| EventSystem.Evsys.RouteBit | megaavr/libraries/Event/src/Event.cpp:566-574 | for a pin-swap user only bit (user & 0x7F) - base of EVSYSROUTEA takes the value; other users leave the register alone |
| FlashNvm.EraseTable | megaavr/libraries/Flash/src/Flash.cpp:154-179 | the erase size selects a command exactly for 1, 2, 4, 8, 16 and 32 pages: FLPER for one page, FLMPERn otherwise, with the lowest allowed address equal to the block's own size in bytes; any other size is refused |
| FlashNvm.ByteWordBytes | megaavr/libraries/Flash/src/Flash.cpp:303-307 | the word writeByte builds carries the data byte in the address's half of the word and 0xFF in the other half |
| FlashNvm.BlockStart | megaavr/libraries/Flash/src/Flash.cpp:196-205 | the block an erase of the given number of pages affects starts at or below the address and contains it |
| FlashNvm.EraseBlockSpares | megaavr/libraries/Flash/src/Flash.cpp:181-188 | an erase that starts past the first block and short of the last one, on a flash made of whole blocks, touches neither the boot section's first page nor the last page kept for the core |
| FlashNvm.ApplyAppend | megaavr/libraries/Flash/src/Flash.cpp:380-392 | word writes appended to a plan are applied after it, on the flash the plan left |
| FlashNvm.CellAfterOne | megaavr/libraries/Flash/src/Flash.cpp:384 | a single word write ANDs its two bytes into the two cells of its word, since programming only clears bits |
| FlashNvm.ByteStepProgram | megaavr/libraries/Flash/src/Flash.cpp:303-320 | the word write of a single byte, padded with 0xFF, programs that byte and no other |
| FlashNvm.WordSteps | megaavr/libraries/Flash/src/Flash.cpp:378-392 | the word loop makes one word write per word of data |
| FlashNvm.WordStepsProgram | megaavr/libraries/Flash/src/Flash.cpp:378-392 | the n word writes from an address program exactly the 2n bytes they carry |
| FlashNvm.BytesPlanAsWrittenMisplacesEven | megaavr/libraries/Flash/src/Flash.cpp:415-424 | writeBytes as written, given three bytes at an even address, leaves the third byte's cell erased, because the trailing byte goes to address + length - 2 |
| FlashNvm.BytesPlanAsWrittenMisplacesOdd | megaavr/libraries/Flash/src/Flash.cpp:410-424 | writeBytes as written, given three bytes at an odd address, writes the first byte a second time and never writes the last |
| FlashNvm.WordCount | megaavr/libraries/Flash/src/Flash.cpp:415-416 | the words written after the leading byte cover all of the data but at most one trailing byte |
| FlashNvm.ProgramBytesConcat | megaavr/libraries/Flash/src/Flash.cpp:407-425 | programming a run and then the run right after it programs both runs |
| FlashNvm.WordsThenByte | megaavr/libraries/Flash/src/Flash.cpp:415-424 | the words, and then the byte left over when the run is odd, together program the whole run |
| FlashNvm.LeadThenRest | megaavr/libraries/Flash/src/Flash.cpp:410-414 | a leading odd byte and then the rest of the run program the whole run |
| FlashNvm.LeadPlaces | megaavr/libraries/Flash/src/Flash.cpp:410-414 | the leading byte write of an odd address programs that first byte |
| FlashNvm.WordsPlace | megaavr/libraries/Flash/src/Flash.cpp:415-418 | the words after the leading byte continue the programmed run |
| FlashNvm.TrailPlaces | megaavr/libraries/Flash/src/Flash.cpp:420-423 | the byte write after the words completes the run |
| FlashNvm.BytesPlanPlaces | megaavr/libraries/Flash/src/Flash.cpp:407-425 | with the corrected writeBytes, every byte of the data lands at its own address and nothing else changes |
| FlashNvm.MappedPointerAsWritten | megaavr/libraries/Flash/src/Flash.cpp:445-467 | mappedPointer as written returns NULL or a pointer into the 0x8000..0xFFFF window |
| FlashNvm.FlashAddress | megaavr/libraries/Flash/src/Flash.cpp:469-494 | flashAddress gives 0 for a pointer below the window, and otherwise the offset into the window plus the start of the mapped 32 KiB section, on each flash size |
| FlashNvm.MappedRoundTrip128 | megaavr/libraries/Flash/src/Flash.cpp:455-462 | on 128 KiB parts mappedPointer and flashAddress round-trip for addresses in the mapped section, and every other address gets NULL; the older pair (libraries/Flash/src/Flash.cpp lines 385-436) is the same code |
| FlashNvm.MappedPointerAsWrittenMisses | megaavr/libraries/Flash/src/Flash.cpp:445-453 | on 64 KiB parts mappedPointer as written refuses 0x8000 while the upper section is mapped, and while the lower one is mapped it gives 0x8000 the pointer of address 0; on 32 KiB parts the address one past the flash also gets the pointer of address 0. The older copy (libraries/Flash/src/Flash.cpp lines 385-409) has the same strict tests |
| FlashNvm.MappedPointer | megaavr/libraries/Flash/src/Flash.cpp:445-467 | the corrected mappedPointer returns NULL or a pointer into the window |
| FlashNvm.MappedRoundTrip | megaavr/libraries/Flash/src/Flash.cpp:445-494 | with the corrected mappedPointer, on every flash size, an address gets a pointer exactly when it lies in the mapped window, and flashAddress leads back to it |
| FlashNvm.FaultsOfMasked | megaavr/libraries/Flash/src/Flash.cpp:208-212 | the error bits raised by any number of SPMs lie inside STATUS's ERROR field |
| FlashNvm.CleanStatusNoFault | megaavr/libraries/Flash/src/Flash.cpp:208-212 | a clean ERROR field after error bits were ORed into STATUS means that no error was raised |
| FlashNvm.PostVerdictCases | megaavr/libraries/Flash/src/Flash.cpp:208-221 | the checks after an SPM answer OK for a clean STATUS with ADDR at the expected address, FAIL plus the error code for error bits, and the missing-SPM code for an ADDR left elsewhere |
| FlashNvm.NvmCtrl.constructor | megaavr/libraries/Flash/src/Flash.cpp:44-49 | the controller starts with the given flash image, STATUS and ADDR, RAMPZ 0 and no command |
| FlashNvm.NvmCtrl.DoNvmctrl | megaavr/libraries/Flash/src/Flash.cpp:44-49 | do_nvmctrl writes NONE and then the command to CTRLA, and changes nothing else |
| FlashNvm.NvmCtrl.Spm | megaavr/libraries/Flash/src/Flash.cpp:205 | one SPM, when an entry point answers, ORs its error bits into STATUS, leaves ADDR at the byte after the one addressed, and erases or programs the flash per SpmEffect; with no entry point it changes nothing |
| FlashNvm.NvmCtrl.SetRampz | megaavr/libraries/Flash/src/Flash.cpp:189-195 | RAMPZ selects the upper 64 KiB exactly for addresses above 0xFFFF, and nothing else changes |
| FlashNvm.NvmCtrl.PostCheck | megaavr/libraries/Flash/src/Flash.cpp:208-221 | error bits clear STATUS and are reported as FAIL; otherwise ADDR must be at the expected address |
| Flash.Progmem | megaavr/libraries/Flash/src/Flash.cpp:151 | PROGMEM_SIZE is at least 32 KiB on every part |
| Flash.FirstSpmFinds | megaavr/libraries/Flash/src/Flash.cpp:62-71 | the scan for the spm z+ opcode finds the first word holding it from the starting word on, and finds none exactly when no word holds it |
| Flash.ScanVerdictMeans | megaavr/libraries/Flash/src/Flash.cpp:62-71 | the entry-point scan answers OK exactly when the first page holds spm z+, BOGUSENTRY exactly when it appears only beyond the first page, and NOENTRY exactly when it is nowhere in the first 32 KiB |
| Flash.WritableOk | megaavr/libraries/Flash/src/Flash.cpp:55-122 | when checkWritable answers OK: with Optiboot, BOOTSIZE is 1, the version word is 0x1901 and the entry word is spm z+; with SPM from anywhere, BOOTSIZE is set and the first page holds the entry point; with a CODESIZE entry, BOOTSIZE is set and CODESIZE matches |
| Flash.WritableButNoBoot | megaavr/libraries/Flash/src/Flash.cpp:57-71 | checkWritable accepts a BOOTSIZE of 2 with an entry point in the first page, while erasePage refuses every erase with NOBOOT |
| Flash.CheckWritable | megaavr/libraries/Flash/src/Flash.cpp:55-122 | checkWritable, scanning the even addresses below 0x8000 in a loop, answers exactly the verdict of the specification |
| Flash.EraseCheckOk | megaavr/libraries/Flash/src/Flash.cpp:141-188 | an erase passes its checks exactly when the fuses are right, the size is in the table, and the address lies within the flash, at or past the block size, and short of the last block when the core reserves it |
| Flash.EraseSparesBootAndCore | megaavr/libraries/Flash/src/Flash.cpp:141-205 | an erase that passes the checks, with the core reserve on, keeps the boot section and the last page of the flash |
| Flash.WordCheckOk | megaavr/libraries/Flash/src/Flash.cpp:225-239 | a word write passes exactly when the fuses are right and the address is even, at least 512 and at most PROGMEM_SIZE - 2 |
| Flash.ByteCheckOk | megaavr/libraries/Flash/src/Flash.cpp:273-289 | a byte write passes exactly when the fuses are right and the address lies between 512 and PROGMEM_SIZE - 2, and below the last page when the core reserves it; the last byte of the flash is always refused |
| Flash.WordsCheckOk | megaavr/libraries/Flash/src/Flash.cpp:336-362 | a multi-word write passes exactly when the length is non-zero and below RAMSIZE, the fuses are right, and the even address is at least 512 with the run ending inside the flash |
| Flash.IssueSpm | megaavr/libraries/Flash/src/Flash.cpp:189-221 | an erase or single write that passed its checks sets RAMPZ, runs do_nvmctrl, one SPM and the post checks, with RAMPZ cleared again |
| Flash.ErasePage | megaavr/libraries/Flash/src/Flash.cpp:141-222 | erasePage returns the failed check's code and changes nothing, or issues the erase command's SPM; an OK answer with a live entry point leaves the block erased |
| Flash.WriteWord | megaavr/libraries/Flash/src/Flash.cpp:225-269 | writeWord returns the failed check's code and changes nothing, or issues one FLWR SPM at the address; an OK answer leaves the word's two bytes programmed, low byte first |
| Flash.WriteByte | megaavr/libraries/Flash/src/Flash.cpp:273-334 | writeByte returns the failed check's code and changes nothing, or issues one FLWR SPM at the even address below it with the byte padded by 0xFF; an OK answer leaves that byte programmed and no other. The older copy (libraries/Flash/src/Flash.cpp lines 225-277) is this code under AsConfig |
| Flash.SpmsAt | megaavr/libraries/Flash/src/Flash.cpp:380-392 | the loop issues one SPM per word |
| Flash.WordsEffectClean | megaavr/libraries/Flash/src/Flash.cpp:380-392 | when no SPM of the loop raises an error, the loop's SPMs are exactly the word writes of the run |
| Flash.SpmWordStep | megaavr/libraries/Flash/src/Flash.cpp:382-384 | one pass of the loop loads r0 and r1 from the buffer and issues spm z+ at the next word |
| Flash.SpmWordsLoop | megaavr/libraries/Flash/src/Flash.cpp:378-392 | the loop runs one pass for each of the length words, in order |
| Flash.IssueWords | megaavr/libraries/Flash/src/Flash.cpp:363-404 | a multi-word write that passed its checks sets RAMPZ, runs do_nvmctrl, the loop and the post checks, with ADDR expected at the run's last byte |
| Flash.WriteWords | megaavr/libraries/Flash/src/Flash.cpp:336-405 | writeWords returns the failed check's code and changes nothing, or issues the loop; an OK answer leaves the run's bytes programmed. The older copy (libraries/Flash/src/Flash.cpp lines 280-344) is this code under AsConfig: zero length first, then the address and size checks |
| Flash.WriteBytes | megaavr/libraries/Flash/src/Flash.cpp:407-425 | corrected (see ## Findings): the corrected writeBytes refuses an empty run and, when it answers OK, every byte of the data sits at its own address. Otherwise it stopped at one step (the leading byte, the words or the last byte), which starts at the ghost `done`, and `mid` is the controller as that step found it, holding exactly the bytes before it (StoppedAt). If that step's check (BytesStepCheck) refused, the answer is the check's error and nothing more is written. If the check passed, the step ran as StepFrom says: the controller commands and SPM issued, the flash with that step's own effect added, and the answer the post-SPM verdict (PostVerdict) of the status it left; no step runs after it. Without a live SPM entry point the flash never changes. The older copy (libraries/Flash/src/Flash.cpp lines 347-367) is the same text and is corrected the same way |
| Flash.OddRun | megaavr/libraries/Flash/src/Flash.cpp:410-414 | from an odd address the leading byte is written first and the even part follows from the next address; a failure stops the run as WriteBytes states, at the leading byte (`done` 0) or at a step of the even part |
| Flash.AfterLead | megaavr/libraries/Flash/src/Flash.cpp:415-424 | after the leading byte, the even part's stop is counted from the leading byte's address: the bytes before the failing step are the leading byte plus those of the even part before it |
| Flash.WriteWordsThenByte | megaavr/libraries/Flash/src/Flash.cpp:415-424 | the words and then the byte left over program the run from an even address; an empty rest writes nothing and answers OK. On a failure it stopped at the step that starts at the ghost `d` (the words when there are any and `d` is 0, the last byte otherwise), with `mid` holding exactly the bytes before it: either that step's check (TailStepCheck) refused, with its error as the answer and nothing more written, or the step ran as StepFrom says and its post-SPM verdict is the answer, with no later SPM |
| Flash.TrailingByte | megaavr/libraries/Flash/src/Flash.cpp:420-424 | the byte left over after the whole words is written at the last address of the run; against the state before the words, OK leaves the whole run programmed and a failure stops at that byte with the words already in place |
| Flash.WholeWords | megaavr/libraries/Flash/src/Flash.cpp:415-418 | the writeWords call: a refused check answers its error and writes nothing; a passed check runs the step as StepFrom says (commands, SPM per word, the words' effect, the post-SPM verdict) |
| Flash.SingleByte | megaavr/libraries/Flash/src/Flash.cpp:411 | a writeByte call (the leading or the last byte): a refused check answers its error and writes nothing; a passed check runs the step as StepFrom says (commands, one SPM at the even address, the byte's effect, the post-SPM verdict) |
| FlashLegacy.AsConfig | libraries/Flash/src/Flash.cpp:101-103 | the older library, which checks BOOTSIZE alone and keeps no core reserve, corresponds to the current one's Optiboot mode with no core reserve, on the same flash and RAM sizes |
| FlashLegacy.WritableOk | libraries/Flash/src/Flash.cpp:28-89 | the older checkWritable answers OK exactly under Optiboot with BOOTSIZE 1, bootloader version 0x1901 and spm z+ at the entry word; without Optiboot it never answers OK |
| FlashLegacy.WritableAgrees | libraries/Flash/src/Flash.cpp:28-89 | under Optiboot the older and the current checkWritable agree exactly when BOOTSIZE is 0 or 1; for a larger BOOTSIZE the older says NOBOOT and the current UNRECOGNIZED |
| FlashLegacy.EraseCheckAgrees | libraries/Flash/src/Flash.cpp:101-135 | the older erase checks pass exactly the erases the current ones pass with no core reserve, and the answers differ only for an address past the flash with a size not in the table |
| FlashLegacy.EraseCheckOk | libraries/Flash/src/Flash.cpp:101-135 | an erase passes the older checks exactly with BOOTSIZE 1, a size in the table and an address from the block size to the end of the flash |
| FlashLegacy.ErasePage | libraries/Flash/src/Flash.cpp:101-177 | the older erasePage returns the failed check's code and changes nothing, or issues the erase SPM and its post checks; an OK answer with a live entry point leaves the block erased |
| FlashLegacy.WriteWord | libraries/Flash/src/Flash.cpp:180-221 | the older writeWord runs the current word checks, one FLWR SPM of the word, and reports SPM_NOT_USED where the current one reports NOT_WRITTEN; an OK answer leaves the word programmed |
| FlashLegacy.ByteCheckIsOlder | libraries/Flash/src/Flash.cpp:225-231 | the older writeByte checks are the current ones with no core reserve |
| FlashLegacy.WordsCheckIsOlder | libraries/Flash/src/Flash.cpp:280-302 | the older writeWords checks, in their order, are the current ones |
| Max38903.NibbleSwap | megaavr/libraries/AzduinoMAX38903/src/AzduinoMAX38903.h:26-27 | the AVR swap instruction exchanges the two nibbles, so swapping back gives the byte |
| Max38903.AcceptedAsWrittenLetsThrough | megaavr/libraries/AzduinoMAX38903/src/AzduinoMAX38903.h:28-31 | the checks as written accept exactly the valid settings and 0x84, which sets C without A |
| Max38903.Encode | megaavr/libraries/AzduinoMAX38903/src/AzduinoMAX38903.h:7-13 | every pair of select levels has a valid setting byte, and it is not OFF |
| Max38903.EncodeRoundTrip | megaavr/libraries/AzduinoMAX38903/src/AzduinoMAX38903.h:7-13 | encoding a pair of levels and decoding the byte give the pair back, and every valid setting other than OFF is the encoding of its own levels |
| Max38903.RegConstants | megaavr/libraries/AzduinoMAX38903/src/AzduinoMAX38903.h:14-23 | each REG_ constant is the encoding of the select levels its comment gives |
| Max38903.SelAAsWrittenMisdecodes | megaavr/libraries/AzduinoMAX38903/src/AzduinoMAX38903.h:48-57 | with the bit-6 test as written, REG_1V2 and REG_1V8 leave SELA floating, REG_2V5 drives it low, and no accepted setting yields SELA high with SELB floating |
| Max38903.Regulator.constructor | megaavr/libraries/AzduinoMAX38903/src/AzduinoMAX38903.h:25 | the regulator starts from the given PORTE and PORTG OUT and DIR bits, with no writes |
| Max38903.Regulator.WriteBit | megaavr/libraries/AzduinoMAX38903/src/AzduinoMAX38903.h:33-59 | one sbi or cbi changes exactly one bit of one register and logs the write |
| Max38903.Regulator.DriveSelect | megaavr/libraries/AzduinoMAX38903/src/AzduinoMAX38903.h:38-57 | a select pin left floating has its DIR bit cleared; a driven one has DIR set and OUT at its level; no other PORTG bit changes and PORTE is not written |
| Max38903.Regulator.SelectAndEnable | megaavr/libraries/AzduinoMAX38903/src/AzduinoMAX38903.h:38-59 | SELB on PG7 and SELA on PG6 reach their levels before PE6, the enable, is raised as the last write |
| Max38903.Regulator.SetVoltage | megaavr/libraries/AzduinoMAX38903/src/AzduinoMAX38903.h:25-62 | corrected (see ## Findings): an invalid setting returns -1 and changes nothing; otherwise PE6 is driven low first; OFF then returns 0; any other setting puts SELA and SELB at the levels the encoding gives, raises PE6 last and returns 1 |
| Optiboot.ResetGate | megaavr/bootloaders/optiboot_dx/optiboot_dx.c:391-422 | no reset flag forces a software reset; a watchdog reset, or a reset sharing no flag with the required entry flags, starts the application with the flags stashed; anything else enters the bootloader |
| Optiboot.GateOutcomes | megaavr/bootloaders/optiboot_dx/optiboot_dx.c:396-415 | a watchdog reset always starts the application, so the bootloader's own exit hands over; with the default entry flags 0x35 a brown-out alone starts the application, and a power-on, external, software or UPDI reset enters the bootloader |
| Optiboot.AnsweredOpens | megaavr/bootloaders/optiboot_dx/optiboot_dx.c:669-676 | a command that passed its terminator has consumed input and opened its reply with STK_INSYNC; one that did not has sent nothing |
| Optiboot.AnsweredAfter | megaavr/bootloaders/optiboot_dx/optiboot_dx.c:664-667 | k argument bytes read and then a command of n argument bytes answer as a command of k + n argument bytes |
| Optiboot.ParameterValue | megaavr/bootloaders/optiboot_dx/optiboot_dx.c:495-512 | GET_PARAMETER answers the version's low byte for SW_MINOR, its high byte for SW_MAJOR and 3 for anything else |
| Optiboot.PageLength | megaavr/bootloaders/optiboot_dx/optiboot_dx.c:279-290 | a page command's length is big-endian when pages exceed 255 bytes, and otherwise the low byte alone with the high byte skipped |
| Optiboot.LoopCount | megaavr/bootloaders/optiboot_dx/optiboot_dx.c:573-575 | a do-while loop on the length runs length times, and a length of 0 wraps round to the full width of the length variable |
| Optiboot.WordCountCoversPage | megaavr/bootloaders/optiboot_dx/optiboot_dx.c:551-558 | for any even page length up to 512, the word count handed to writebuffer covers exactly the bytes received, including a full 512-byte page whose count truncates to 0 |
| Optiboot.PageArgs | megaavr/bootloaders/optiboot_dx/optiboot_dx.c:546-589 | PROG_PAGE and READ_PAGE take at least their two length bytes and the memory type |
| Optiboot.Bootloader.constructor | megaavr/bootloaders/optiboot_dx/optiboot_dx.c:439-491 | the bootloader starts running with the received frames, an empty output and page buffer, RAMPZ 0, the entry watchdog period and any 16-bit address |
| Optiboot.Bootloader.GetCh | megaavr/bootloaders/optiboot_dx/optiboot_dx.c:650-662 | getch takes the next frame and resets the watchdog only when the frame has no framing error; with no frame left it waits forever |
| Optiboot.Bootloader.PutCh | megaavr/bootloaders/optiboot_dx/optiboot_dx.c:644-648 | putch appends the byte to the output while the bootloader runs |
| Optiboot.Bootloader.VerifySpace | megaavr/bootloaders/optiboot_dx/optiboot_dx.c:669-676 | verifySpace answers STK_INSYNC when the next byte is CRC_EOP, and otherwise sets the 8-clock watchdog and spins with no reply |
| Optiboot.Bootloader.GetNch | megaavr/bootloaders/optiboot_dx/optiboot_dx.c:664-667 | getNch drops count bytes, 0 meaning 256, and then checks the terminator |
| Optiboot.Bootloader.Command | megaavr/bootloaders/optiboot_dx/optiboot_dx.c:491-640 | one pass of the main loop either sends nothing, because it waits for input or spins on a bad terminator, or sends one whole reply: STK_INSYNC first and a single closing STK_OK; a pass that answers consumes input |
| Optiboot.Bootloader.Dispatch | megaavr/bootloaders/optiboot_dx/optiboot_dx.c:491-636 | each command as the loop dispatches it: GET_PARAMETER reads one byte and answers its ParameterValue; SET_DEVICE and SET_DEVICE_EXT drop 20 and 5 bytes and answer nothing more; LOAD_ADDRESS reads two bytes into the address, low byte first; UNIVERSAL drops four bytes and answers 0; the page, signature and leave commands as DispatchPages states; any other command only checks its terminator; each either opens its reply after consuming input or sends nothing |
| Optiboot.Bootloader.DispatchPages | megaavr/bootloaders/optiboot_dx/optiboot_dx.c:546-640 | PROG_PAGE consumes its length, type and data bytes before the terminator; READ_PAGE answers PageRead of its three argument bytes; READ_SIGN answers 0x1E, the size byte and DEVICEID2; LEAVE_PROGMODE sets the 8-clock watchdog; the default only checks the terminator; each either opens its reply after consuming input or sends nothing |
| Optiboot.Bootloader.Receive | megaavr/bootloaders/optiboot_dx/optiboot_dx.c:573-575 | the receive loop takes exactly count bytes when there are that many, and otherwise waits for bytes that never come |
| Optiboot.Bootloader.GetParameter | megaavr/bootloaders/optiboot_dx/optiboot_dx.c:495-512 | GET_PARAMETER reads the parameter byte and the terminator, then answers the parameter's value |
| Optiboot.Bootloader.LoadAddress | megaavr/bootloaders/optiboot_dx/optiboot_dx.c:519-524 | LOAD_ADDRESS sets the address from its low and high bytes and checks the terminator; with too few bytes the address stays |
| Optiboot.Bootloader.Universal | megaavr/bootloaders/optiboot_dx/optiboot_dx.c:525-545 | UNIVERSAL takes four bytes and the terminator and answers 0; on parts with RAMPZ the LOAD_EXT_ADDR opcode loads RAMPZ from its third byte, and nothing else changes RAMPZ |
| Optiboot.Bootloader.ProgPage | megaavr/bootloaders/optiboot_dx/optiboot_dx.c:546-580 | PROG_PAGE reads the length, the memory type, exactly length data bytes into the page buffer and the terminator, then makes one writebuffer call with the memory type, the address, the data and the byte or word count; a pass that does not reach the terminator writes nothing |
| Optiboot.Bootloader.GetLength | megaavr/bootloaders/optiboot_dx/optiboot_dx.c:279-290 | GETLENGTH consumes two bytes and yields the page length, or waits when fewer are left |
| Optiboot.Bootloader.ReadPage | megaavr/bootloaders/optiboot_dx/optiboot_dx.c:583-615 | READ_PAGE reads the length, the memory type and the terminator, then sends the bytes PageRead gives and leaves the address and RAMPZ where PageReadEnd says |
| Optiboot.Bootloader.PageRead | megaavr/bootloaders/optiboot_dx/optiboot_dx.c:583-615 | READ_PAGE sends as many bytes as its do-while loop runs |
| Optiboot.Bootloader.PageBytes | megaavr/bootloaders/optiboot_dx/optiboot_dx.c:592-614 | each byte sent comes from the data space at the mapped address (0x8000 up for flash, 0x1400 up for EEPROM) or from flash at RAMPZ:address |
| Optiboot.Bootloader.SendPage | megaavr/bootloaders/optiboot_dx/optiboot_dx.c:592-614 | the read loops of READ_PAGE send exactly PageBytes and leave the address and RAMPZ per PageEnd |
| Optiboot.Bootloader.ReadMapped | megaavr/bootloaders/optiboot_dx/optiboot_dx.c:598-602 | the data-space loop sends count bytes from consecutive 16-bit addresses and moves the address past them |
| Optiboot.Bootloader.ReadFlash | megaavr/bootloaders/optiboot_dx/optiboot_dx.c:830-847 | read_flash sends count bytes of flash from consecutive addresses of a copy of the address, carrying into RAMPZ on parts that have it |
| Optiboot.Bootloader.ReadSign | megaavr/bootloaders/optiboot_dx/optiboot_dx.c:616-631 | READ_SIGN checks the terminator and answers 0x1E, then 0x97 for 128 KiB of flash, 0x96 for 64 KiB, DEVICEID1 on smaller DD parts and 0x94 on other smaller parts, then DEVICEID2 |
| Optiboot.Bootloader.Serve | megaavr/bootloaders/optiboot_dx/optiboot_dx.c:491-640 | the main loop runs until the bootloader waits for input or spins towards its watchdog reset, and everything it sent is a run of whole replies, one per command handled |
| PinConfigure.Field | megaavr/cores/dxcore/wiring_extra.cpp:42-51 | a two-bit field of the configuration word is a number 0..3, and it is 0 exactly when both bits are clear |
| PinConfigure.CtrlMeetsUnique | megaavr/cores/dxcore/wiring_extra.cpp:64-116 | the configuration word determines the new PINnCTRL value from the old one: exactly one value meets it |
| PinConfigure.SecondCallChangesNothing | megaavr/cores/dxcore/wiring_extra.cpp:64-116 | for a word that toggles nothing, a second identical call leaves PINnCTRL as the first left it |
| PinConfigure.ToggleTwiceRestores | megaavr/cores/dxcore/wiring_extra.cpp:73-114 | a word that only toggles the pull-up and INVEN flips both bits, and applying it twice restores PINnCTRL |
| PinConfigure.StrobeWrites | megaavr/cores/dxcore/wiring_extra.cpp:42-51 | the low nibble asks for at most a direction strobe and then an output strobe, on the pin's port with its mask: DIRSET for field 1, DIRTGL for field 3, and nothing when the whole nibble is 0 |
| PinConfigure.ConfiguredByWrite | megaavr/cores/dxcore/wiring_extra.cpp:32-120 | a call on a real pin whose word has a bit above the low nibble makes the strobes and then one PINnCTRL write meeting the word |
| PinConfigure.ConfiguredByStrobes | megaavr/cores/dxcore/wiring_extra.cpp:32-56 | a call on a real pin whose word has only strobe fields makes the strobes and leaves PINnCTRL untouched |
| PinConfigure.Ports.constructor | megaavr/cores/dxcore/wiring_extra.cpp:32 | the ports start with the given PINnCTRL values and interrupt state, and with no register writes |
| PinConfigure.Ports.PinConfigure | megaavr/cores/dxcore/wiring_extra.cpp:32-120 | __pinconfigure does nothing for a pin past the table or an all-zero word; otherwise it makes the strobes, and for a word with higher bits reads and writes PINnCTRL once with interrupts disabled, ending as Configured says and with the interrupt state restored |
| PinConfigure.Ports.WriteStrobes | megaavr/cores/dxcore/wiring_extra.cpp:42-52 | the strobes are exactly StrobeWrites, nothing else changes, and the word is handed back shifted right by two |
| PinConfigure.Ports.PinConfigureChecked | megaavr/cores/dxcore/wiring_extra.cpp:122-151 | _pinconfigure clears the direction field of a word with bit 0 set on the board's input-only pin, so that pin never gets DIRSET or DIRTGL, and passes every other word through |
| PinConfigure.ReadModifyWrite | megaavr/cores/dxcore/wiring_extra.cpp:69-114 | the new PINnCTRL value computed from the old one meets the word |
| PinConfigure.IscAndPullup | megaavr/cores/dxcore/wiring_extra.cpp:69-82 | ISC takes bits 0-2 of the shifted word when its bit 3 is set, and the pull-up bit is set, cleared or toggled by the next field; the other bits stay |
| PinConfigure.InlvlAndInven | megaavr/cores/dxcore/wiring_extra.cpp:97-114 | INLVL is set or cleared by its field where the part has it, INVEN is set, cleared or toggled by its field, and the lower bits stay |
| PinConfigure.FieldsOfShifted | megaavr/cores/dxcore/wiring_extra.cpp:64-98 | the fields of the shifted word are the word's own fields four places up |
| PinSwap.MuxSetAsWritten | megaavr/cores/dxcore/pinswap.c:307-313 | the mux update as written sets the new code's bits and clears only the bit named by the selector column (0 or 1) rather than the USART's group mask |
| PinSwap.MuxSetAsWrittenKeepsOldRoute | megaavr/cores/dxcore/pinswap.c:307-313 | as written, switching USART0 from its ALT1 route back to the default leaves the register at ALT1, and for every USART whose selector is 0 the update clears nothing |
| PinSwap.MuxSet | megaavr/cores/dxcore/pinswap.c:307-313 | the corrected update gives the USART's field the new code and keeps every bit outside the field |
| PinSwap.MuxSetReplacesField | megaavr/cores/dxcore/pinswap.c:307-313 | with a code inside the group mask, the corrected update replaces the field and changes nothing else |
| PinSwap.MuxRegisterAsWritten | megaavr/cores/dxcore/pinswap.c:308 | both arms of the register choice as written name the first route register |
| PinSwap.MuxRegister | megaavr/cores/dxcore/pinswap.c:308 | the corrected choice names the second route register exactly when the selector is 1 |
| PinSwap.MuxRegisterAsWrittenMisses | megaavr/cores/dxcore/pinswap.c:308 | for a USART whose selector is 1 the register chosen as written is the wrong one |
| PinSwap.PortMux.constructor | megaavr/cores/dxcore/pinswap.c:307 | the port mux starts with the given route registers |
| PinSwap.PortMux.UsartMuxSet | megaavr/cores/dxcore/pinswap.c:307-313 | corrected (see ## Findings): one read-modify-write of the register holding the USART's field, leaving the other register alone |
| PinSwap.PortMux.UsartSwap | megaavr/cores/dxcore/pinswap.c:315-331 | corrected (see ## Findings): swap number 255 answers 255 and writes no register; a number below the mux count selects its row's code; any other falls back to row 0 and answers 0 |
| PinSwap.UsartPins | megaavr/cores/dxcore/pinswap.c:333-344 | a pin pair of two NOT_A_PINs gives the NONE code; otherwise the code of the first row whose TX and RX pins match, or NOT_A_MUX when none does |
| Uart.Masked | megaavr/cores/dxcore/UART.cpp:128 | masking with size - 1, for a power-of-two size, keeps an index below the size and wraps an index one lap past it |
| Uart.Idx | megaavr/cores/dxcore/UART.cpp:159 | a ring index some places after the tail stays inside the buffer |
| Uart.Count | megaavr/cores/dxcore/UART.cpp:316-318 | the bytes a ring holds are fewer than its size, none exactly when head equals tail, and counting them from the tail reaches the head |
| Uart.Ring | megaavr/cores/dxcore/UART.cpp:316-318 | the ring's contents have as many bytes as Count says |
| Uart.RingPush | megaavr/cores/dxcore/UART.cpp:118-128 | storing a byte at the head and advancing it, when the ring is not full, appends the byte to the contents |
| Uart.RingPop | megaavr/cores/dxcore/UART.cpp:328-337 | the byte at the tail is the first of the contents, and advancing the tail drops it |
| Uart.HexDigit | megaavr/cores/dxcore/UART.cpp:492-501 | printHex writes 0-9 for nibbles below ten and uppercase A-F for the rest |
| Uart.HexBytesRoundTrip | megaavr/cores/dxcore/UART.cpp:492-501 | the hexadecimal digits read back to the same bytes, so printing loses nothing |
| Uart.WordOrder | megaavr/cores/dxcore/UART.cpp:503-512 | a 16-bit value is printed most significant byte first, or in memory order when swaporder is set |
| Uart.LongOrder | megaavr/cores/dxcore/UART.cpp:514-528 | a 32-bit value is printed most significant byte first, or in memory order when swaporder is set |
| Uart.UartClass.constructor | megaavr/cores/dxcore/UART.cpp:251-300 | a port starts with empty receive and transmit rings of power-of-two sizes, the default pin set and nothing written |
| Uart.UartClass.RxComplete | megaavr/cores/dxcore/UART.cpp:112-130 | a received byte without a parity error is appended to the receive queue unless the queue is full, one slot always being left free; otherwise the queue is unchanged |
| Uart.UartClass.Available | megaavr/cores/dxcore/UART.cpp:316-318 | available answers the number of bytes in the receive queue, below the buffer size, and 0 exactly when head equals tail |
| Uart.UartClass.Peek | megaavr/cores/dxcore/UART.cpp:320-326 | peek answers -1 for an empty queue and otherwise the oldest byte, without consuming it |
| Uart.UartClass.Read | megaavr/cores/dxcore/UART.cpp:328-337 | read answers -1 for an empty queue and otherwise removes and answers the oldest byte |
| Uart.UartClass.AvailableForWrite | megaavr/cores/dxcore/UART.cpp:339-351 | availableForWrite answers the free slots of the transmit ring, one slot being kept free |
| Uart.UartClass.TxDataEmpty | megaavr/cores/dxcore/UART.cpp:138-166 | the data-register-empty interrupt sends the oldest queued byte, removes it, and turns itself off once the queue is empty; the stream of bytes still to be sent is unchanged |
| Uart.UartClass.Write | megaavr/cores/dxcore/UART.cpp:445-487 | write queues the byte after everything already waiting, sends it directly when the queue and the data register are both empty, and otherwise leaves the interrupt on with a non-empty queue and PA7 (VPORTA.OUT bit 7) set, the direct path leaving VPORTA.OUT alone |
| Uart.UartClass.Enqueue | megaavr/cores/dxcore/UART.cpp:474-487 | the slow path of write drives PA7 low while it waits and high again afterwards, then the byte follows everything already queued, with the interrupt on |
| Uart.UartClass.WaitForRoom | megaavr/cores/dxcore/UART.cpp:474-481 | the wait for a free slot ends with the head's successor not equal to the tail, while the stream still to be sent is unchanged (no queued byte is lost) |
| Uart.UartClass.Push | megaavr/cores/dxcore/UART.cpp:483-487 | with a free slot, storing the byte at the head and advancing it appends the byte to the stream and leaves the interrupt enabled |
| Uart.UartClass.PrintHex | megaavr/cores/dxcore/UART.cpp:492-501 | printHex of a byte adds its two digits to the outgoing stream |
| Uart.UartClass.PrintHexWord | megaavr/cores/dxcore/UART.cpp:503-512 | printHex of a 16-bit value adds four digits, high byte first unless swaporder asks for memory order |
| Uart.WordDigitsRoundTrip | megaavr/cores/dxcore/UART.cpp:503-512 | the four digits of a 16-bit value printed in the default order read back to the value |
| Uart.UartClass.PrintHexLong | megaavr/cores/dxcore/UART.cpp:514-528 | printHex of a 32-bit value adds the digits of its bytes in LongOrder |
| Uart.UartClass.Swap | megaavr/cores/dxcore/UART.cpp:238-249 | swap accepts exactly an index below the mux count or MUX_NONE; MUX_NONE selects the pin set past the table and anything refused falls back to pin set 0 |
| Uart.PinsToSwap | megaavr/cores/dxcore/UART.cpp:424-441 | two NOT_A_PINs give MUX_NONE; otherwise the first pin set whose TX pin matches when the RX pin follows the TX pin, and NOT_A_MUX when none does |
| Uart.FindTx | megaavr/cores/dxcore/UART.cpp:430-437 | the search loop answers the first of the first n pin sets whose TX pin matches, or n when none of them does |
| Uart.HexArrayPlain | megaavr/cores/dxcore/UART.cpp:530-537 | an array printed without a separator gives the plain digits of its bytes, which read back to the bytes |
| Uart.HexArrayLayout | megaavr/cores/dxcore/UART.cpp:530-537 | with a separator, byte i's digits sit at positions 3i and 3i+1 and the separator at 3i+2, after every byte but the last: 3n-1 characters for n bytes |
| Uart.UartClass.PrintHexArray | megaavr/cores/dxcore/UART.cpp:530-537 | printHex of a byte array (and its volatile twin at 548-556) adds the bytes' digits joined by the separator, then CR LF |
| Uart.UartClass.PrintHexWordArray | megaavr/cores/dxcore/UART.cpp:538-546 | printHex of an array of 16-bit values (and its volatile twin at 558-566) adds each value's four digits joined by the separator, then CR LF |
| UserSig.Cell | megaavr/libraries/USERSIG/src/USERSIG.h:207-208 | an index names the cell given by masking it with USER_SIGNATURES_SIZE - 1, always inside the row |
| UserSig.Slot | megaavr/libraries/USERSIG/src/USERSIG.h:339-354 | the cell some places after an index is inside the row |
| UserSig.SlotsDistinct | megaavr/libraries/USERSIG/src/USERSIG.h:339-354 | fewer than USER_SIGNATURES_SIZE steps apart never name the same cell, so a get or put of at most a row's worth of bytes touches each cell once |
| UserSig.Erased | megaavr/libraries/USERSIG/src/USERSIG.h:274 | the cleared buffer holds 0xFF in every byte |
| UserSig.Differing | megaavr/libraries/USERSIG/src/USERSIG.h:267-276 | the intended flush tally counts the buffered bytes that differ from the row, and is 0 exactly when buffer and row are equal |
| UserSig.Matching | megaavr/libraries/USERSIG/src/USERSIG.h:267-271 | the tally as written counts the bytes that are equal, which is the row size minus the differing ones |
| UserSig.FlushAsWritten | megaavr/libraries/USERSIG/src/USERSIG.h:263-295 | a flush as written leaves the row unchanged when no byte matches, and otherwise writes the buffer |
| UserSig.FlushAsWrittenLosesWrites | megaavr/libraries/USERSIG/src/USERSIG.h:267-276 | a two-byte row holding 0x00 0x00 whose buffer holds 0x01 0x01 keeps its old bytes after a flush as written |
| UserSig.RawAddressOkAsWritten | megaavr/libraries/USERSIG/src/USERSIG.h:242-244 | the raw-write check as written accepts every index up to and including the row size |
| UserSig.RawAddressAsWrittenOverruns | megaavr/libraries/USERSIG/src/USERSIG.h:242-244 | the index equal to the row size, one past the last cell, passes the check as written and fails the intended one |
| UserSig.RawAddressOk | megaavr/libraries/USERSIG/src/USERSIG.h:242-244 | the corrected check accepts exactly the cells of the row |
| UserSig.PutViewElsewhere | megaavr/libraries/USERSIG/src/USERSIG.h:347-356 | a put leaves every cell it does not cover as it was |
| UserSig.PutGetRoundTrip | megaavr/libraries/USERSIG/src/USERSIG.h:339-356 | a get after a put of at most a row's worth of bytes at the same index reads the bytes back |
| UserSig.UserRow.constructor | megaavr/libraries/USERSIG/src/USERSIG.h:194-195 | the library starts unloaded, outside an interrupt, with the given row visible |
| UserSig.UserRow.Load | megaavr/libraries/USERSIG/src/USERSIG.h:197-206 | load is refused with -16 inside an interrupt; otherwise it copies the row into the buffer, marks it loaded and answers 0 |
| UserSig.UserRow.Read | megaavr/libraries/USERSIG/src/USERSIG.h:207-213 | read answers the byte at the masked index of what a read sees |
| UserSig.UserRow.WriteRaw | megaavr/libraries/USERSIG/src/USERSIG.h:235-253 | corrected (see ## Findings): writeraw answers -16 inside an interrupt, -2 while loaded and -4 for an index outside the row, changing nothing; otherwise it ANDs the byte into the row's cell, logs one write and answers 1 |
| UserSig.UserRow.Write | megaavr/libraries/USERSIG/src/USERSIG.h:219-233 | write is refused with -16 inside an interrupt; otherwise what a read sees takes the byte at the masked cell and keeps every other cell; unloaded, a byte that only clears bits is programmed at once and any other loads the row first |
| UserSig.UserRow.Flush | megaavr/libraries/USERSIG/src/USERSIG.h:255-296 | corrected (see ## Findings): flush and erase do nothing inside an interrupt; flush with nothing loaded changes nothing; a loaded flush answers the number of differing bytes, writes nothing when there are none, and otherwise erases the page and writes every buffered byte back; afterwards the buffer is unloaded and cleared and reads see the same contents as before |
| UserSig.UserRow.EraseAndRewrite | megaavr/libraries/USERSIG/src/USERSIG.h:279-291 | the page is erased and, when asked, every buffered byte is written back in order |
| UserSig.UserRow.CountDiffering | megaavr/libraries/USERSIG/src/USERSIG.h:267-271 | the corrected tally loop counts exactly the differing bytes |
| UserSig.UserRow.ClearBuffer | megaavr/libraries/USERSIG/src/USERSIG.h:274 | the buffer is filled with 0xFF |
| UserSig.UserRow.Erase | megaavr/libraries/USERSIG/src/USERSIG.h:314-316 | erase outside an interrupt erases the page, writes nothing back, unloads and answers 0; inside one it answers -16 and changes nothing |
| UserSig.UserRow.Get | megaavr/libraries/USERSIG/src/USERSIG.h:339-345 | get reads the bytes GetView gives from what a read sees |
| UserSig.UserRow.Put | megaavr/libraries/USERSIG/src/USERSIG.h:347-356 | put outside an interrupt leaves what a read sees as PutView gives, and a value larger than four bytes ends committed; inside an interrupt nothing changes |
| UserSig.WriteOps | megaavr/libraries/USERSIG/src/USERSIG.h:288-290 | a full-row rewrite writes each byte at its own index, in order |
| Variant48.DigitalPinToAnalogInputAsWrittenMisreads | megaavr/variants/48pin-standard/pins_arduino.h:110 | the macro as written gives PA5 the channel -13 and gives PC4 channel 0, which belongs to PD0, so PC4's channel does not lead back to PC4 |
| Variant48.AnalogChannelToDigitalPin | megaavr/variants/48pin-standard/pins_arduino.h:111 | channels 0-11 name PD0-PE3 and channels 16-21 name PF0-PF5; every other channel is NOT_A_PIN |
| Variant48.DigitalPinToAnalogInput | megaavr/variants/48pin-standard/pins_arduino.h:110 | the corrected macro gives a channel exactly to the pins PD0-PF5, and the channel leads back to the pin |
| Variant48.ChannelRoundTrip | megaavr/variants/48pin-standard/pins_arduino.h:110-111 | every channel that names a pin comes back to itself through that pin |
| Variant48.AnalogInputToDigitalPin | megaavr/variants/48pin-standard/pins_arduino.h:112 | a channel with or without its channel-number flag (bit 7) names the same pin |
| Variant48.DigitalOrAnalogPinToDigital | megaavr/variants/48pin-standard/pins_arduino.h:113 | an argument with bit 7 set is a channel and becomes its pin; any other is passed through exactly when it is at most NUM_DIGITAL_PINS, and is NOT_A_PIN otherwise |
| Variant48.PortToPinZero | megaavr/variants/48pin-standard/pins_arduino.h:115 | adding a bit to its port's pin zero gives that pin's number, PB having six pins; ports past PF have no pin zero |
| Variant48.MillisPin | megaavr/variants/48pin-standard/pins_arduino.h:126-136 | the TCB taken by millis() gives up its pin: PF4 for TCB0, PF5 for TCB1, PB4 for TCB2, PB5 for TCB3 |
| Variant48.MillisDropsOnePin | megaavr/variants/48pin-standard/pins_arduino.h:126-136 | each millis() choice removes exactly its TCB's pin from the default PWM set |
| Variant64.PinNumber | megaavr/variants/64pin-standard/pins_arduino.h:11-65 | every pin of the package has a number below NUM_DIGITAL_PINS |
| Variant64.PinNumberInjective | megaavr/variants/64pin-standard/pins_arduino.h:11-65 | two different pins never share a number |
| Variant64.TablesDescribePins | megaavr/variants/64pin-standard/pins_arduino.h:378-551 | entry p of the port, bit position and bit mask tables is the pin numbered p, with its bit's PINn_bm as the mask |
| Variant64.TablesCoverPins | megaavr/variants/64pin-standard/pins_arduino.h:378-551 | every pin's entry in the three tables gives its port, its bit and that bit's PINn_bm |
| Variant64.PortTableAt | megaavr/variants/64pin-standard/pins_arduino.h:378-434 | digital_pin_to_port at each pin's number is its port |
| Variant64.BitPositionTableAt | megaavr/variants/64pin-standard/pins_arduino.h:437-493 | digital_pin_to_bit_position at each pin's number is its bit |
| Variant64.BitMaskTableAt | megaavr/variants/64pin-standard/pins_arduino.h:495-551 | digital_pin_to_bit_mask at each pin's number is its bit's mask |
| Variant64.Lookup | megaavr/cores/dxcore/Arduino.h:172-178 | the port, position and mask lookups give a pin's entry exactly for numbers below NUM_DIGITAL_PINS |
| Variant64.DigitalPinToAnalogInputAsWrittenMisreads | megaavr/variants/64pin-standard/pins_arduino.h:89 | the macro as written gives PC7 the channel -1 and gives PG0 channel 22, which leads to no pin |
| Variant64.AnalogChannelToDigitalPin | megaavr/variants/64pin-standard/pins_arduino.h:90 | channels 0-21 name PD0-PF5, and every other channel is NOT_A_PIN |
| Variant64.DigitalPinToAnalogInput | megaavr/variants/64pin-standard/pins_arduino.h:89 | the corrected macro gives a channel exactly to the pins PD0-PF5, and the channel leads back to the pin |
| Variant64.ChannelRoundTrip | megaavr/variants/64pin-standard/pins_arduino.h:89-90 | every channel comes back to itself through its pin |
| Variant64.AsWrittenAgreesOnChannels | megaavr/variants/64pin-standard/pins_arduino.h:89 | the written and the corrected macro agree everywhere except on PC7 and the PORTG pins |
| Variant64.AnalogInputToDigitalPin | megaavr/variants/64pin-standard/pins_arduino.h:91 | a channel with or without its channel-number flag (bit 7) names the same pin |
| Variant64.DigitalOrAnalogPinToDigitalAsWrittenPassesNoPin | megaavr/variants/64pin-standard/pins_arduino.h:92 | the macro as written passes through 55, which is no pin |
| Variant64.DigitalOrAnalogPinToDigital | megaavr/variants/64pin-standard/pins_arduino.h:92 | with the strict bound, a channel ID becomes its pin, a pin number is kept exactly when that pin exists, and the result is always a pin or NOT_A_PIN |
| Variant64.DigitalOrAnalogPinToDigitalDiffers | megaavr/variants/64pin-standard/pins_arduino.h:92 | the written and the corrected macro differ on 55 alone |
| Variant64.PortToDigitalPinZero | megaavr/variants/64pin-standard/pins_arduino.h:93 | adding a bit to its port's pin zero gives the pin's number for every pin except PF6, which is numbered last; ports past PG have no pin zero |
| Variant64.MillisPin | megaavr/variants/64pin-standard/pins_arduino.h:95-107 | the TCB taken by millis() gives up its pin, which the default PWM set has |
| Variant64.MillisDropsOnePin | megaavr/variants/64pin-standard/pins_arduino.h:95-107 | each millis() choice removes exactly its TCB's pin from the default PWM set |
| Variant64.DigitalPinHasPWMAsWrittenClaimsPB7 | megaavr/variants/64pin-standard/pins_arduino.h:127 | the macro as written, which excludes PB6 twice, says PB7 has PWM although no timer drives it |
| Variant64.DigitalPinHasPWMMatchesTimers | megaavr/variants/64pin-standard/pins_arduino.h:110-127 | outside the TCB pins, the corrected macro answers yes exactly for the TCA0, TCA1 and TCD0 output pins |
| Variant64.DigitalPinHasPWMDiffers | megaavr/variants/64pin-standard/pins_arduino.h:127 | the written and the corrected macro differ on PB7 alone |
| Variant32Du.PinNumber | megaavr/variants/32pin-duseries/pins_arduino.h:34-61 | every pin of the package has a number below NUM_DIGITAL_PINS, and none is 12, the placeholder for the missing PD0 |
| Variant32Du.DigitalPinToAnalogInput | megaavr/variants/32pin-duseries/pins_arduino.h:105-108 | pin 12 and PD1-PD7 give channels 0-7, PF0-PF5 give 16-21, PA2 up to PC3 give 22-31, losing the PORTC pins under MVIO; every other pin has none, and each channel leads back to its pin |
| Variant32Du.AnalogChannelToDigitalPin | megaavr/variants/32pin-duseries/pins_arduino.h:105-108 | channels 0-7 and 16-21 always name a pin, 22-31 only up to 27 under MVIO, and 8-15 never |
| Variant32Du.ChannelRoundTrip | megaavr/variants/32pin-duseries/pins_arduino.h:105-108 | every channel that names a pin comes back to itself through the pin |
| Variant32Du.RuntimeFormAgrees | megaavr/variants/32pin-duseries/pins_arduino.h:95-108 | the form that reads the MVIO fuse at run time equals the fixed forms with the fuse's value filled in |
| Variant32Du.MvioDropsPortC | megaavr/variants/32pin-duseries/pins_arduino.h:95-108 | MVIO takes away exactly the PORTC pins and their channels 28-31, and changes nothing else |
| Variant32Du.PlaceholderHasChannel | megaavr/variants/32pin-duseries/pins_arduino.h:107-108 | pin 12, the placeholder for the missing PD0, is still given channel 0, and channel 0 leads to it |
| Variant32Du.AnalogInputToDigitalPin | megaavr/variants/32pin-duseries/pins_arduino.h:111 | a channel with or without its channel-number flag (bit 7) names the same pin |
| Variant32Du.DigitalOrAnalogPinToDigital | megaavr/variants/32pin-duseries/pins_arduino.h:112 | an argument with bit 7 set is a channel and becomes its pin; any other is passed through exactly when it is at most NUM_DIGITAL_PINS, and is NOT_A_PIN otherwise |
| Variant32Du.PortToPinZero | megaavr/variants/32pin-duseries/pins_arduino.h:113 | PA, PC, PD and PF have pin zeros from which adding a bit gives the pin's number; no other port has one |
| Variant32Du.BitPositionTable | megaavr/variants/32pin-duseries/pins_arduino.h:391-428 | the position table has an entry per pin for every clock source |
| Variant32Du.BitMaskTable | megaavr/variants/32pin-duseries/pins_arduino.h:430-467 | the mask table has an entry per pin for every clock source |
| Variant32Du.TablesCoverPins | megaavr/variants/32pin-duseries/pins_arduino.h:359-467 | every pin's entries give its port and, unless the clock source takes the pin, its bit and that bit's PINn_bm; a pin the clock source takes is NOT_A_PIN in both |
| Variant32Du.PortTableAt | megaavr/variants/32pin-duseries/pins_arduino.h:359-388 | digital_pin_to_port at each pin's number is its port |
| Variant32Du.PositionAndMaskAt | megaavr/variants/32pin-duseries/pins_arduino.h:391-467 | the position and mask entries at each pin's number give its bit and mask, or NOT_A_PIN when the clock source takes the pin |
| Variant32Du.PositionAt | megaavr/variants/32pin-duseries/pins_arduino.h:391-428 | digital_pin_to_bit_position at each pin's number is its bit, or NOT_A_PIN for a clock pin |
| Variant32Du.MaskAt | megaavr/variants/32pin-duseries/pins_arduino.h:430-467 | digital_pin_to_bit_mask at each pin's number is its bit's mask, or NOT_A_PIN for a clock pin |
| Variant32Du.TablesEntryAgree | megaavr/variants/32pin-duseries/pins_arduino.h:359-467 | the placeholder pin 12 is listed under PORTD but is NOT_A_PIN in both the position and the mask table; in every entry the mask is NOT_A_PIN exactly when the position is, and otherwise is the position's PINn_bm |

## Left out

- `Ptc.PtcLib.Schedule`: with no node in the list and no pending conversion type, ptc.c:521-522 reads the type through a NULL `firstNode`, whose outcome on the AVR is undefined; the model requests no conversion in that case.
- Serial I/O of the UPDI stack: opening the port, `initialise_serial`, `send_double_break`, `sib` and `change_baud` are port handling and timing, so only the constructor's single break byte is modelled.
- The `Timeout`, `pause_mod` and `readwrite` modules are not part of this model. They are oracles (expiry answers, a recorded pause, a trace of facade calls). A facade call that fails is not modelled.
- `constants.py` is not part of this model. The register offsets, status bits and command codes are pymcuprog's published values, written as constants in `UpdiNvm`.
- The device descriptor files are static data. The only descriptor values used are the NVM controller's base address and the flash page size, and both are parameters.
- `ptc.h` and `ptc_types.h` are not part of this model. The node and library state types are written out; `RSEL_MAX`, `PTC_PRESC_DEFAULT` and `PTC_GAIN_MAX` are parameters.
- The PTC register writes in `ptc_init_conversion`, `ptc_start_conversion` and `ptc_eoc`, and the PTC interrupt handlers, are hardware paths. The scheduler only records the conversion type it requests.
- The PTC user callbacks are weak no-op hooks and are not modelled.
- UART `flush`, `_poll_tx_data_empty`, `begin`, `_set_pins` and `_mux_set`, the baud-rate setup and the `UART0`-`UART5` interrupt stubs are register plumbing and busy-waits on hardware flags. The interrupt handlers are methods the environment may call between the sketch's calls.
- `Print::println` is not part of this model. `println()` is taken to write CR LF, as the Arduino Print class does.
- `Uart.UartClass.PrintHexArray`: does not return the advanced pointer `p + len` the source returns, which depends only on the arguments.
- `Uart.UartClass.PrintHexWordArray`: does not return the advanced pointer `p + len` the source returns, which depends only on the arguments.
- `Uart.UartClass.Write`: the wait while the transmit queue is full is modelled as the data-register-empty handler sending one byte per wait step; the interrupt-level check and `_poll_tx_data_empty` are not modelled.
- USERSIG's NVMCTRL busy-waits and the interrupt masking around its flash commands are not modelled. The row size `USER_SIGNATURES_SIZE` is fixed at 32 bytes, the size on the AVR DA and DB parts.
- EEPROM's memory-mapped layout beyond the 512 cells of the DA and DB parts is not modelled; the EEPROM size is fixed at 512.
- The inline-assembly `spm` sequences of both Flash libraries are an oracle. Each SPM takes its error bits from a queue of faults, ORs them into STATUS and leaves ADDR one past the byte it addressed. When it raised no error, it erases or programs the flash image.
- `Flash.h` is not part of this model. It lacks `FLASHWRITE_NOT_WRITTEN` and `FLASHWRITE_RESERVED_BY_CORE`, so the return codes are a datatype rather than numbers.
- `Flash.WriteBytes`: for length 0 the source returns an uninitialised status at an even address. At an odd address it writes the first byte and then about 65535 words, because the length wraps round. The model answers `ZeroLength` for both, unchanged.
- Optiboot's `writebuffer`, `read_flash` and `nvm_cmd` are assembly and register access. The model records each `writebuffer` call with its arguments in order, and reads flash from an image.
- Optiboot's LED flashing, the watchdog timing itself, the UART set-up and the `pin_defs_dx.h` tables are hardware configuration; only the watchdog period is recorded.
- `Optiboot.Bootloader.constructor`: the address and length start uninitialised in the source; the model takes any starting address.
- `Event::assign_generator` is dead code: it calls `get_event_channel`, which is not defined anywhere.
- `Event::set_user_pin` depends on an ATmega pin-to-user table that does not apply to the Dx parts modelled here.
- `Event.h` is not part of this model. The generator and user codes of the 64-pin DA and DB parts are written as constants, and `gen::disable` is 0.
- The Event library and `pinConfigure` are modelled on the 64-pin DA/DB variant's pin tables; the other variants differ only in those tables.
- `pinConfigure`'s `badArg` and `check_valid_digital_pin` are compile-time checks. `HARDWIRE_INPUT_ONLY` is a build option, so it is a parameter of the model.
- The `PORTA_EVGENCTRL` sections of `wiring_extra.cpp` are never compiled, and `AzduinoMAX38903.c` duplicates the header with an undefined name; neither is modelled.
- `core_devices.h`, `Arduino.h`, `pinswap.h`, `UART_swap.h` and `UART_constants.h` are not part of this model. The USART pin tables are parameters; `NOT_A_PIN` is 255, `NOT_A_MUX` is 255 and `MUX_NONE` is 128.
- The per-device timer headers and the other variant headers are not modelled.

## Findings

| source | as written | input that shows it | evidently intended | confidence | as-written member | corrected member |
|---|---|---|---|---|---|---|
| megaavr/tools/libs/pymcuprog/serialupdi/nvm.py:119-122 | P:0 `write_flash` sends a one-byte write into the fuse window to `write_fuse(address, data)`, with no `self.` | a one-byte `write_flash` at 0x1280 | call `self.write_fuse`, which writes the fuse | not executed | UpdiNvm.WriteFlashP0AsWritten, UpdiNvm.FuseWindowByteLost | UpdiNvm.WriteFlashP0Spec, UpdiNvm.WriteFlashP0Fuse |
| megaavr/libraries/PTC/src/ptc.c:1060-1073 | `ptc_append_node` refuses only a node that is already the list's last | appending the first of two listed nodes again | refuse any node already on the list | not executed | Ptc.AppendAsWritten, Ptc.AppendAsWrittenCycles | Ptc.AppendChecked, Ptc.AppendCheckedTerminates |
| megaavr/cores/dxcore/pinswap.c:307-313 | `_usart_mux_set` clears with the register-selector column instead of the group mask, and both arms of its register choice pick PORTMUX.USARTROUTEA | USART0 moved from ALT1 back to the default route | clear the USART's own field in its own route register | not executed | PinSwap.MuxSetAsWritten, PinSwap.MuxSetAsWrittenKeepsOldRoute, PinSwap.MuxRegisterAsWritten, PinSwap.MuxRegisterAsWrittenMisses | PinSwap.MuxSet, PinSwap.MuxSetReplacesField, PinSwap.MuxRegister |
| megaavr/libraries/USERSIG/src/USERSIG.h:267-276 | the flush tally counts the bytes equal to the stored row, and flush skips the rewrite when that count is 0 | a row of 00 00 with a buffer of 01 01 | count the bytes that differ | not executed | UserSig.FlushAsWritten, UserSig.FlushAsWrittenLosesWrites | UserSig.UserRow.Flush |
| megaavr/libraries/USERSIG/src/USERSIG.h:242-244 | `__USigwriteraw` refuses only `idx > USER_SIGNATURES_SIZE` | `idx == USER_SIGNATURES_SIZE` | refuse `idx >= USER_SIGNATURES_SIZE` | not executed | UserSig.RawAddressOkAsWritten, UserSig.RawAddressAsWrittenOverruns | UserSig.RawAddressOk, UserSig.UserRow.WriteRaw |
| megaavr/libraries/Flash/src/Flash.cpp:407-425 | `writeBytes` writes the trailing byte at `address + length - 2` and reads the words from `data` without skipping the leading odd byte; libraries/Flash/src/Flash.cpp:347-367 is the same | three bytes at 0x1000, or at 0x1001 | every byte at its own address | not executed | FlashNvm.BytesPlanAsWritten, FlashNvm.BytesPlanAsWrittenMisplacesEven, FlashNvm.BytesPlanAsWrittenMisplacesOdd | FlashNvm.BytesPlan, FlashNvm.BytesPlanPlaces, Flash.WriteBytes |
| megaavr/libraries/Flash/src/Flash.cpp:445-453 | `mappedPointer` tests `address > 0x8000` and `address > PROGMEM_SIZE`; libraries/Flash/src/Flash.cpp:385-393 is the same | address 0x8000 on a 64 KiB part | `address >= 0x8000` and `address >= PROGMEM_SIZE` | not executed | FlashNvm.MappedPointerAsWritten, FlashNvm.MappedPointerAsWrittenMisses | FlashNvm.MappedPointer, FlashNvm.MappedRoundTrip |
| megaavr/variants/48pin-standard/pins_arduino.h:110 | `digitalPinToAnalogInput` sends every pin below 22 to `p - 18` | PA5 gives -13 and PC4 gives channel 0 | NOT_A_PIN for pins without a channel | not executed | Variant48.DigitalPinToAnalogInputAsWritten, Variant48.DigitalPinToAnalogInputAsWrittenMisreads | Variant48.DigitalPinToAnalogInput, Variant48.ChannelRoundTrip |
| megaavr/variants/64pin-standard/pins_arduino.h:89 | `digitalPinToAnalogInput` gives `p - 24` for 23 to 53 | PC7 gives -1 and PG0 gives 22 | `p - 24` for 24 to 45, NOT_A_PIN otherwise | not executed | Variant64.DigitalPinToAnalogInputAsWritten, Variant64.DigitalPinToAnalogInputAsWrittenMisreads | Variant64.DigitalPinToAnalogInput, Variant64.ChannelRoundTrip |
| megaavr/variants/64pin-standard/pins_arduino.h:127 | `digitalPinHasPWM` excludes PB6 twice | pin 15 (PB7) | exclude PB6 and PB7 | not executed | Variant64.DigitalPinHasPWMAsWritten, Variant64.DigitalPinHasPWMAsWrittenClaimsPB7 | Variant64.DigitalPinHasPWM, Variant64.DigitalPinHasPWMMatchesTimers |
| megaavr/variants/64pin-standard/pins_arduino.h:92 | `digitalOrAnalogPinToDigital` passes `p <= NUM_DIGITAL_PINS` | pin 55 | `p < NUM_DIGITAL_PINS` | not executed | Variant64.DigitalOrAnalogPinToDigitalAsWritten, Variant64.DigitalOrAnalogPinToDigitalAsWrittenPassesNoPin | Variant64.DigitalOrAnalogPinToDigital, Variant64.DigitalOrAnalogPinToDigitalDiffers |
| megaavr/libraries/AzduinoMAX38903/src/AzduinoMAX38903.h:48 | PG6 is driven when bit 6 is clear | REG_1V2 leaves SELA floating | drive PG6 when bit 6 is set, as the encoding comment says | not executed | Max38903.SelAAsWritten, Max38903.SelAAsWrittenMisdecodes | Max38903.Regulator.SetVoltage, Max38903.EncodeRoundTrip |
| megaavr/libraries/AzduinoMAX38903/src/AzduinoMAX38903.h:28-31 | the swap test lets a level bit through without its drive bit when the other drive bit is set | setting 0x84 | refuse any level bit whose drive bit is clear | not executed | Max38903.AcceptedAsWritten, Max38903.AcceptedAsWrittenLetsThrough | Max38903.ValidSetting, Max38903.Regulator.SetVoltage |
| megaavr/libraries/Event/src/Event.cpp:478-484 | `get_user_channel_number` reads the user register at the unmasked user code | user code 0x90 | mask with 0x7F as `set_user` and `clear_user` do | not executed | EventSystem.UserChannelNumberAsWritten, EventSystem.UserChannelNumberAsWrittenMisreads | EventSystem.UserChannelNumber, EventSystem.UserChannelNumberAgrees |

## Notes

- The programming stack's design description says the P:3 and P:5 drivers always clear the command register after their final poll, and that only P:0 has a bulk-write mode. The code does otherwise, and the model follows the code:
  - `write_nvm` of P:3 and P:5 raises before NOCMD when the last poll fails;
  - P:2 and P:4 `write_nvm` honour `bulkwrite` too;
  - P:2 and P:4 `chip_erase` write no NOCMD.
- `writeByte` in both Flash libraries refuses the last byte of the flash (`address > PROGMEM_SIZE - 2`), and `writeWord`/`writeWords` have no core-reserve check. The model keeps both as written.
- Without Optiboot (SPM from the application), the current `checkWritable` accepts any nonzero BOOTSIZE (megaavr/libraries/Flash/src/Flash.cpp:56-59), while `erasePage` and the write functions answer NOBOOT for BOOTSIZE other than 1. With Optiboot, `checkWritable` answers NOBOOT for BOOTSIZE 0 and UNRECOGNIZED above 1 (lines 81-91). The older `checkWritable`'s `BOOTSIZE > 1` branch is unreachable after its `!= 1` test.
- In the Event library, `Event_empty` is built on channel 0's register:
  - its `start()` writes channel 0;
  - `set_user` through it writes user value 0;
  - `soft_event` through it writes 248 to SWEVENTB.
- `assign_generator_pin(pin)` lacks a semicolon at Event.cpp:242. The model takes the evident statement.
- The 48-pin and 32-pin DU headers also test `p <= NUM_DIGITAL_PINS` in `digitalOrAnalogPinToDigital`. They are modelled as written; the correction is shown on the 64-pin header.
- The 48-pin header's TCB2/TCB3 comments disagree with its `PWMTCB` macro; the model follows the macro.
- In the 32-pin DU header, the phantom pin 12 maps to ADC channel 0.
- Optiboot's PROG_PAGE with length 0 reads 65536 bytes into a 512-byte buffer. A full 512-byte page with word writes hands `writebuffer` a count that truncates to 0, which the assembly loop runs as 256 words.
