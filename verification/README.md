# USB-to-LPT adapter: a verified model

The repository turns a microcontroller into a USB device with a printer port and lets old programs reach it: a
software USB driver for AVR (V-USB) in C and assembler, a debugger that replaces port instructions in a running
program, a library that it injects, and a firmware loader. This project models the parts whose correctness is hard to
see and proves what they are for. `dafny verify dfyconfig.toml` checks all of it.

## The parts

**CRC** (`Bits`, `Avr`, `Crc16`, `Crc16Asm`, `CrcDetection`). Registers are sequences of eight bits, bit 0 first; the
instructions used are methods on them. The specification is one bit at a time; both assembler routines are proved
equal to it for every length, and what the CRC detects is proved for packets of every length.

**Line code** (`LineCode`, `Transmit`, `Receive`, `Receive128`, `LineRoundTrip`). One level for each bit time. Bit
stuffing and NRZI are two short recursive functions; the transmitters (a down-counter, a history byte) and the
receivers (a rotating window, three cleared positions) are loops over registers proved against them and against a
receiver that counts ones. The round trip comes with the exact set of messages that it holds for: the sender counts
the last bit of the sync byte in its run of ones and the receiver does not. The 12.8 MHz receiver, which never looks
at the level of a stuffed bit and finds the end of a packet by a sample between two bits, is proved on every line,
whichever neighbour that sample shows. On correctly stuffed lines it agrees with the 12 MHz one under an exact
condition on where SE0 comes.

**Control transfers** (`UsbState`, `UsbMain`, `UsbInterrupt`, `UsbReply`, `UsbSetup`, `UsbInvariant`, `UsbDelivery`,
`UsbInterleaving`, `UsbRuns`, `UsbTheorems`, `UsbProgress`, `UsbRegisters`, `UsbStandard`, `UsbDriver`,
`UsbOnTheLine`). The main loop and the packet interrupt share variables without locks. Every statement of the main
loop that touches a shared variable, and every store into the transmit buffer, is one step of a state machine, the
interrupt is another, and a run is any interleaving of them. History variables record the last accepted SETUP and
packet, the packets sent since, the two address variables at that time, bus resets and calls of the EEPROM callbacks.
`UsbReply` says what a request is owed without pointers, flags or buffers; the invariant is a conservation law: what
has been sent, what lies in the buffer at whatever stage, and what the message pointer will still deliver are together
what is owed. `UsbStandard` holds the replies against the standard, and `UsbRegisters` says what the port and
configuration bytes in them are. The class `UsbDriver.Driver` is the driver as it is written: fields, two arrays, the
interrupt fed with an arbitrary received line through the 12 MHz receiver and answering through the 12 MHz
transmitter, and usbPoll with any number of packets arriving between any two statements. Its methods are proved to
stay on runs of the state machine, so that everything proved about runs holds for it.

**Live patching** (`X86Instruction`, `X86Length`, `X86Tables`, `X86Sweep`, `ByteMemory`, `X86Patch`, `X86Machine`,
`X86Trampoline`, `X86Simulation`, `X86Dispatch`). Instructions are structured values with an encoding; the opcode
tables are given by the byte values whose bit is set. The classes are held against the mask formulas of the source,
and lengths of the usual instructions are also stated byte by byte. The length disassembler is proved against that
encoding in both directions. Writing the patch is a method on the memory of another process in which every call may
fail, after writing any number of bytes. A small processor model fetches the bytes that the memory holds. The original
program in the memory before the patch and the patched one are related by what they have in common; going through the
trampoline takes related programs to related programs. Displaced instructions are a function on machine states that
must do the same in both programs from the state at hand; registers, loads, stores, PUSH, POP and sequences of them
are shown to do so. Flags are not modelled. A port function keeps to the calling convention: given some amount of free
stack it returns with its address popped, keeps EBX, EBP, ESI and EDI, and writes only the free stack and its
arguments.

**Port functions** (`PortModes`). Interception by the debugger and the two port functions of the injected library,
with a device whose answers depend on its history and which may refuse; when the two modes agree, as an
if-and-only-if.

**Firmware loader** (`FirmwareLoader`). A boot loader that may lose a packet, write part of a block, or carry out a
command whose answer is lost, behind pipes that may report failure after all. It answers a zero byte only after
carrying out a command, but answers that nobody has read wait and are read first.

## Findings

- A message whose first byte starts with five ones does not survive the line, except when all its later bits are zero
  (`LineRoundTrip.RoundTripExactly`, Firmware/AVRUSBLPT/usbdrv/usbdrvasm12.inc:313): 0x3f is spoilt
  (`LineRoundTrip.FiveOnesExamples`). No PID starts so.
- The two receivers do not agree on every correctly stuffed line, even if SE0 comes for two bit times
  (Firmware/AVRUSBLPT/usbdrv/usbdrvasm128.inc:214-233): the 12.8 MHz one may miss the end of the few messages starting
  with five ones that the 12 MHz one accepts, for example 0x1f (`Receive128.ReceiversDiffer`).
  `Receive128.ReceiversAgree` says exactly on which lines they agree, `Receive128.RoundTrip128Exactly` which messages
  come back.
- With a base address other than 0x378 the two port modes differ (`PortModes.OnlyLpt1Agrees`,
  LptToUsbAdapter/LptPatchInjectee/LptPatchInjectee.c:249); with 0x378 they differ exactly on an IN from a bypassed
  port when AL is not zero, for one mode keeps AL and the other clears it (`PortModes.ModesAgree`, and
  `PortModes.BypassedReadDiffers` with AL = 1).
- PatchIoInstruction does not undo a failure (LptToUsbAdapter/LptPatchInjector/LptPatchInjector.c:264-274): every
  program that can be patched can be left with a jump at the site to new memory from which no jump leads back
  (`X86Patch.LastWriteFails`). The contract of `X86Patch.PatchIoInstruction` says exactly when the program's memory is
  intact after a failure: when no byte at the site has been written, or those written are the old ones, which the
  first one never is (`X86Patch.PatchChangesOpcode`). The comparison of len_total with the buffer size comes after the
  bytes have been copied, and never fires for the 16-byte buffer.
- A SET_ADDRESS whose status stage never happens takes effect with the first data packet of the next request
  (Firmware/AVRUSBLPT/usbdrv/usbdrvasm12.inc:373-377): `UsbProgress.SetAddressLeftOpen` is such a run, and
  `UsbTheorems.OtherRequestsKeepAddress` says exactly when another request leaves the address alone.
- The loader takes the oldest unread reply for the answer to its last command, and a write that is reported to have
  failed is repeated without reading the reply it may have caused (LptToUsbAdapter/UsbLptLib/UsbLptLib.c:127-142,
  262-277). It can then return true over a wrong flash (`FirmwareLoader.TrueOverWrongFlash`); an acknowledgement can
  be trusted exactly when no zero byte was waiting (`FirmwareLoader.AttemptExact`), and a whole load when no reply is
  left over before it and every answered attempt reports success (`FirmwareLoader.LoadIsReliable`). Whether the boot
  loader itself refuses such an image for its SHA-512 value is not part of this repository.

## Model

| member | source | states |
|---|---|---|
| `Crc16.RegisterAppend` | Firmware/AVRUSBLPT/usbdrv/usbdrvasm.S:145-167 | the CRC register over two bit strings is the register over the second, started from the register over the first |
| `Crc16.ShiftsAreRegister` | Firmware/AVRUSBLPT/usbdrv/usbdrvasm.S:232-253 | shifting out bits of a register into which a byte was folded is running the bitwise CRC over those bits |
| `Crc16.ShiftsClosedForm` | Firmware/AVRUSBLPT/usbdrv/usbdrvasm.S:151-167 | bit `i` of the register after `k` shifts, said with parities of the low bits instead of steps |
| `Crc16Asm.BitLoop` | Firmware/AVRUSBLPT/usbdrv/usbdrvasm.S:245-253 | the bit loop on the complemented register, carry always set: exactly eight passes, and the result is the complement of eight shifts |
| `Crc16Asm.UsbCrc16Slow` | Firmware/AVRUSBLPT/usbdrv/usbdrvasm.S:232-259 | the small routine returns CRC16 (reflected polynomial 0xA001, start 0xFFFF, complemented) of every block of 0 to 255 bytes; its two counters wrap exactly then |
| `Crc16Asm.ParityOf` | Firmware/AVRUSBLPT/usbdrv/usbdrvasm.S:186-195 | swap, exclusive-or, shift, increment and mask compute the parity of a byte |
| `Crc16Asm.TableStep` | Firmware/AVRUSBLPT/usbdrv/usbdrvasm.S:186-210 | one pass of the fast routine is eight shifts of the register |
| `Crc16Asm.UsbCrc16Fast` | Firmware/AVRUSBLPT/usbdrv/usbdrvasm.S:177-216 | the fast routine returns the same CRC16 for every block of 0 to 255 bytes |
| `Crc16Asm.BothRoutines` | Firmware/AVRUSBLPT/usbdrv/usbdrvasm.S:145-261 | the two routines agree on every block |
| `Crc16Asm.UsbCrc16Append` | Firmware/AVRUSBLPT/usbdrv/usbdrvasm.S:263-268 | low and high CRC byte are stored behind the data and nothing else changes |
| `CrcDetection.PacketLeavesResidue` | Firmware/AVRUSBLPT/usbdrv/usbdrvasm.S:263-268 | data with its appended CRC leaves the constant residue 0xB001, whatever the data (USB 2.0, section 8.3.5.2, reflected) |
| `CrcDetection.ResidueValue` | Firmware/AVRUSBLPT/usbdrv/usbdrvasm.S:237-238 | the residue is the word 0xB001 |
| `CrcDetection.ErrorPasses` | Firmware/AVRUSBLPT/usbdrv/usbdrvasm.S:263-268 | a changed packet passes the receiver's check if and only if the register, started at zero, ends at zero over the error pattern |
| `CrcDetection.PacketParityEven` | Firmware/AVRUSBLPT/usbdrv/usbdrvasm.S:263-268 | data and CRC together have an even number of one bits |
| `CrcDetection.OddErrorsDetected` | Firmware/AVRUSBLPT/usbdrv/usbdrvasm.S:263-268 | every odd number of flipped bits is detected |
| `CrcDetection.BurstDetected` | Firmware/AVRUSBLPT/usbdrv/usbdrvasm.S:263-268 | every error within sixteen consecutive bits is detected, in a packet of any length |
| `CrcDetection.AdjacentBytesChangeCrc` | Firmware/AVRUSBLPT/usbdrv/usbdrvasm.S:145-167 | changing one or both of two adjacent data bytes changes the CRC |
| `LineCode.StuffRoundTrip` | Firmware/AVRUSBLPT/usbdrv/usbdrvasm12.inc:271-280 | bit stuffing can be undone (USB 2.0, section 7.1.9) |
| `LineCode.StuffBreaksRuns` | Firmware/AVRUSBLPT/usbdrv/usbdrvasm12.inc:276-280 | a stuffed message never has seven ones in a row |
| `LineCode.NrziRoundTrip` | Firmware/AVRUSBLPT/usbdrv/usbdrvasm12.inc:316-321 | NRZI can be undone (USB 2.0, section 7.1.8) |
| `Transmit.SendBit12` | Firmware/AVRUSBLPT/usbdrv/usbdrvasm12.inc:274-280 | one bit with the down-counter: rotate, undo on the sixth one, send the stuffed zero |
| `Transmit.UsbSend12` | Firmware/AVRUSBLPT/usbdrv/usbdrvasm12.inc:307-364 | the 12 MHz transmitter puts sync byte and message on the line as "insert 0 after six ones, then NRZI", with a stuffed bit after the last data bit too; `subi cnt, 171` gives three double passes a byte; the pointer ends at start plus count |
| `Transmit.SendBit15` | Firmware/AVRUSBLPT/usbdrv/usbdrvasm15.inc:360-370 | one bit with the history byte: a stuffed bit exactly when it is 0xfc or more |
| `Transmit.UsbSend15` | Firmware/AVRUSBLPT/usbdrv/usbdrvasm15.inc:350-391 | the 15 MHz transmitter gives the same line levels, whatever the history byte holds at the start |
| `Receive.MaskValues` | Firmware/AVRUSBLPT/usbdrv/usbdrvasm12.inc:187-226 | the six window masks have the values in the program |
| `Receive.TestWindow` | Firmware/AVRUSBLPT/usbdrv/usbdrvasm12.inc:187-189 | the mask test branches exactly on the sixth one in a row |
| `Receive.Unstuff` | Firmware/AVRUSBLPT/usbdrv/usbdrvasm12.inc:119-166 | the changes to `x3` and `shift` on a sixth one keep the byte right and drop the next bit |
| `Receive.ReceiveBit` | Firmware/AVRUSBLPT/usbdrv/usbdrvasm12.inc:207-212 | one bit of the receiver loop takes what a plain run counter takes |
| `Receive.UsbReceive12` | Firmware/AVRUSBLPT/usbdrv/usbdrvasm12.inc:92-249 | on every line the receiver stores the bytes that the plain receiver finds, ends with a packet or an overflow when it does, recovers the count from the down-counter and takes Y back to the start |
| `Receive128.TestOnes` | Firmware/AVRUSBLPT/usbdrv/usbdrvasm128.inc:209-211 | clearing three positions and testing for zero finds exactly the sixth one |
| `Receive128.FirstBits128` | Firmware/AVRUSBLPT/usbdrv/usbdrvasm128.inc:163-185 | three levels are decoded in parallel by one exclusive-or with the shifted register |
| `Receive128.ReceiveBit128` | Firmware/AVRUSBLPT/usbdrv/usbdrvasm128.inc:202-233 | on every line, one bit with the toggle taken for granted behind a sixth one, by a jump to the code for the other level |
| `Receive128.UsbReceive128` | Firmware/AVRUSBLPT/usbdrv/usbdrvasm128.inc:202-515 | on every line and for every outcome of the samples between two bits: the bytes, the end or the overflow, the count and the pointer are those of a run counter that takes the toggle for granted and ends at the two tests for SE0; each byte is stored three bits into the next one |
| `Receive128.ListenIsPlain` | Firmware/AVRUSBLPT/usbdrv/usbdrvasm12.inc:119-249 | the receiver that samples every bit, a byte at a time |
| `Receive128.ReceiversAgree` | Firmware/AVRUSBLPT/usbdrv/usbdrvasm128.inc:202-515 | on a correctly stuffed line the two receivers have the same outcome, whatever the samples between two bits show, if and only if every byte boundary is exact: behind bit 0 the tests for SE0 cannot differ |
| `Receive128.RoundTrip128Exactly` | Firmware/AVRUSBLPT/usbdrv/usbdrvasm128.inc:214-233 | a message comes back whatever the samples between two bits show if and only if its first byte does not start with five ones |
| `Receive128.TransmittedIsWellStuffed` | Firmware/AVRUSBLPT/usbdrv/usbdrvasm128.inc:202-233 | every line that a transmitter made is correctly stuffed |
| `Receive128.ReceiversDiffer` | Firmware/AVRUSBLPT/usbdrv/usbdrvasm128.inc:214-233 | the message 0x1f, correctly stuffed, comes back through the 12 MHz receiver and may not through this one |
| `LineRoundTrip.AfterSync` | Firmware/AVRUSBLPT/usbdrv/usbdrvasm12.inc:92-113 | the wire shows the sync pattern first, and what follows is the message after one counted one |
| `LineRoundTrip.RoundTrip` | Firmware/AVRUSBLPT/usbdrv/usbdrvasm12.inc:92-249 | every message of 1 to 11 bytes whose first byte does not start with five ones is received as it was sent |
| `LineRoundTrip.RoundTripExactly` | Firmware/AVRUSBLPT/usbdrv/usbdrvasm12.inc:313-318 | exactly which messages come back: those, and those whose bits are all zero after five leading ones; the sender counts the last sync bit, the receiver does not |
| `LineRoundTrip.FiveOnesExamples` | Firmware/AVRUSBLPT/usbdrv/usbdrvasm12.inc:313-318 | 0x3f does not come back, 0x1f does |
| `UsbSetup.DriverReplies` | Firmware/AVRUSBLPT/usbdrv/usbdrv.c:373-426 | usbDriverSetup leaves pointer, flag and length of exactly the reply that USB 2.0, section 9.4 asks for, inside the object pointed to, replies staged in the transmit buffer included |
| `UsbSetup.FunctionReplies` | Firmware/AVRUSBLPT/main.c:151-226 | the same for the vendor requests of usbFunctionSetup |
| `UsbReply.PacketCount` | Firmware/AVRUSBLPT/usbdrv/usbdrv.c:538-560 | a reply of n bytes is n / 8 full packets and one that is not full |
| `UsbReply.PacketAt` | Firmware/AVRUSBLPT/usbdrv/usbdrv.c:538-560 | packet j holds bytes 8j to 8j + 7 and the PIDs alternate from DATA1 |
| `UsbReply.PacketsCarryMessage` | Firmware/AVRUSBLPT/usbdrv/usbdrv.c:504-531 | the payloads of the packets, joined, are the reply |
| `UsbDelivery.ReplyIsCut` | Firmware/AVRUSBLPT/usbdrv/usbdrv.c:477-484 | the length is limited to wLength, whose high byte only matters when it is not zero |
| `UsbDelivery.BuildConserves` | Firmware/AVRUSBLPT/usbdrv/usbdrv.c:538-560 | no statement of usbBuildTxBlock adds, loses or changes a packet |
| `UsbDelivery.LimitConserves` | Firmware/AVRUSBLPT/usbdrv/usbdrv.c:477-484 | at the end of usbProcessRx the packets queued are those owed |
| `UsbDelivery.MainConserves` | Firmware/AVRUSBLPT/usbdrv/usbdrv.c:581-617 | sent packets, the packet in the buffer and the packets still to be read stay, through every statement of the main loop, what is owed |
| `UsbInterleaving.InterruptCases` | Firmware/AVRUSBLPT/usbdrv/asmcommon.inc:54-151 | an interrupt takes a packet, sends a packet, or changes only its half of the buffer and the current token |
| `UsbInterleaving.InterruptKeeps` | Firmware/AVRUSBLPT/usbdrv/asmcommon.inc:104-151 | every packet, at any point of the main loop, keeps the invariant of the exchange |
| `UsbInterleaving.DataPacketAnswer` | Firmware/AVRUSBLPT/usbdrv/asmcommon.inc:104-127 | a packet with PID 0xc3 or 0x4b: nothing without a token, NAK while a packet is taken, ACK below four bytes, else ACK, and length, token and bytes are taken |
| `UsbInterleaving.ForeignTokenAnswer` | Firmware/AVRUSBLPT/usbdrv/asmcommon.inc:66-70 | a token for another address: nothing is answered, the token is forgotten and nothing else changes |
| `UsbInterleaving.OwnTokenAnswer` | Firmware/AVRUSBLPT/usbdrv/asmcommon.inc:66-87 | a token for the device: IN, 0x69, is answered by NAK while a packet is taken, by the handshake on offer or by the packet on offer; SETUP and OUT, 0x2d and 0xe1, are remembered; others are forgotten |
| `UsbInterleaving.OverflowAnswer` | Firmware/AVRUSBLPT/usbdrv/usbdrvasm12.inc:169-199 | a packet that does not fit is ignored |
| `UsbRuns.MainKeepsAddress` | Firmware/AVRUSBLPT/usbdrv/usbdrv.c:401-403 | no statement of the main loop breaks what is known about the two address variables |
| `UsbRuns.InterruptKeepsAddress` | Firmware/AVRUSBLPT/usbdrv/usbdrvasm12.inc:366-377 | no interrupt does |
| `UsbRuns.Run` | Firmware/AVRUSBLPT/usbdrv/usbdrv.c:581-617 | the invariant holds after every sequence of statements and packets from start-up |
| `UsbTheorems.SentIsOwed` | Firmware/AVRUSBLPT/usbdrv/asmcommon.inc:129-151 | in every run the packets sent since the last accepted 8-byte SETUP are the first of those owed for it, and none while it is being processed |
| `UsbTheorems.DataIsNextOwed` | Firmware/AVRUSBLPT/usbdrv/asmcommon.inc:129-151 | any data packet that an interrupt sends is the next one owed for the last accepted SETUP; when all have gone there is none |
| `UsbTheorems.InterruptRespectsMain` | Firmware/AVRUSBLPT/usbdrv/asmcommon.inc:104-151 | no interrupt writes the transmit buffer; the offset is 0 or 11; while a packet is taken the half in which it lies, the hand-over variables and the address stay, and no data goes out |
| `UsbTheorems.MainRespectsInterrupt` | Firmware/AVRUSBLPT/usbdrv/usbdrv.c:602-606 | while a packet is on offer and no packet is taken the main loop leaves buffer and length alone |
| `UsbTheorems.RequestIsAccepted` | Firmware/AVRUSBLPT/usbdrv/usbdrv.c:586-599 | usbProcessRx sees exactly the eight request bytes that were accepted |
| `UsbTheorems.StatusStage` | Firmware/AVRUSBLPT/usbdrv/usbdrv.c:401-403 | SET_ADDRESS is answered by one empty DATA1 packet |
| `UsbTheorems.SetAddressTiming` | Firmware/AVRUSBLPT/usbdrv/usbdrvasm12.inc:366-377 | without a bus reset the old address holds until the status packet has been sent, and the new one from then on (USB 2.0, section 9.4.6) |
| `UsbTheorems.ForeignTokensAreIgnored` | Firmware/AVRUSBLPT/usbdrv/asmcommon.inc:66-70 | in every run a token for another address is not answered, and neither is a data packet behind it |
| `UsbTheorems.OwnTokensAreHeard` | Firmware/AVRUSBLPT/usbdrv/asmcommon.inc:66-87 | in every run SETUP and OUT tokens for the device are remembered and IN tokens answered |
| `UsbTheorems.SetAddressOnTheBus` | Firmware/AVRUSBLPT/usbdrv/usbdrvasm12.inc:366-377 | without a bus reset tokens count if they carry the old address until the status packet has been sent, and if they carry the new one from then on |
| `UsbTheorems.OtherRequestsKeepAddress` | Firmware/AVRUSBLPT/usbdrv/usbdrvasm12.inc:366-377 | another request keeps the address if and only if the two address variables agreed when it was accepted, that is, no SET_ADDRESS was waiting for its status stage; otherwise its first packet moves the address |
| `UsbProgress.SetAddressLeftOpen` | Firmware/AVRUSBLPT/usbdrv/usbdrvasm12.inc:373-377 | a run in which that happens: SET_ADDRESS 5 without status stage, then GET_CONFIGURATION, and the device answers at address 5 only |
| `UsbTheorems.WhatMovesTheAddress` | Firmware/AVRUSBLPT/usbdrv/usbdrvasm12.inc:373-377 | only the end of a data packet moves the address, to the one asked for last, and the bus reset, to zero; no handshake does |
| `UsbTheorems.NoUserReadWrite` | Firmware/AVRUSBLPT/main.c:60-83 | in every run the flag for user reads and writes is clear and the EEPROM callbacks are never called |
| `UsbRegisters.RunAgrees` | Firmware/AVRUSBLPT/main.c:202-216 | in every run usbConfiguration is the value of the last SET_CONFIGURATION handled, and IoByte, once a GET_REG has been handled, is what the register held then, or zero |
| `UsbRegisters.GetRegReply` | Firmware/AVRUSBLPT/main.c:202-216 | the reply to GET_REG is the byte that the register held when the request was handled, and zero above register 4 |
| `UsbRegisters.GetConfigurationReply` | Firmware/AVRUSBLPT/usbdrv/usbdrv.c:409-415 | the reply to GET_CONFIGURATION is the value of the last SET_CONFIGURATION handled, zero if there was none |
| `UsbRegisters.GetVersionReply` | Firmware/AVRUSBLPT/main.c:173-178 | the reply to GET_VERSION is the version that the device started with |
| `UsbStandard.PidsAreChecked` | Firmware/AVRUSBLPT/usbdrv/usbdrv.h:640-655 | packet identifiers are four bits and their complement (USB 2.0, section 8.3.1) |
| `UsbStandard.StandardRequests` | Firmware/AVRUSBLPT/usbdrv/usbdrv.c:373-426 | which reply each standard request has, by its number (USB 2.0, section 9.4) |
| `UsbStandard.VendorRequests` | Firmware/AVRUSBLPT/main.c:151-226 | which reply each vendor request has, by its number |
| `UsbStandard.ModeIsLimited` | Firmware/AVRUSBLPT/main.c:180-190 | SET_MODE: a mode above 2 becomes 2 where the request lies |
| `UsbStandard.RepliesAreCut` | Firmware/AVRUSBLPT/usbdrv/usbdrv.c:477-484 | a reply is cut to wLength, whose bytes are the last two of the request |
| `UsbStandard.DescriptorsDescribeThemselves` | Firmware/AVRUSBLPT/usbdrv/usbdrv.c:60-180 | a descriptor starts with its length and the type asked for |
| `UsbStandard.DeviceDescriptor` | Firmware/AVRUSBLPT/usbdrv/usbdrv.c:116-140 | packets of eight bytes, two strings, no serial number, one configuration |
| `UsbStandard.ConfigurationDescriptor` | Firmware/AVRUSBLPT/usbdrv/usbdrv.c:150-172 | total length, one interface, no endpoints |
| `UsbStandard.VendorString` | Firmware/AVRUSBLPT/usbconfig.h:241-242 | string 1 spells the vendor name |
| `UsbStandard.ProductString` | Firmware/AVRUSBLPT/usbconfig.h:251-252 | string 2 spells the device name |
| `UsbStandard.OtherStrings` | Firmware/AVRUSBLPT/usbconfig.h:258-265 | string 0 is the language, string 3 does not exist, for the serial number is commented out, and string 0xEE is the one for Windows |
| `UsbProgress.StepTowardsEnd` | Firmware/AVRUSBLPT/usbdrv/usbdrv.c:581-617 | usbPoll comes to its end: every statement lowers a bound |
| `UsbProgress.EventForward` | Firmware/AVRUSBLPT/usbdrv/usbdrv.c:581-617 | no statement of the main loop and no packet but a new SETUP takes back a sent packet, changes what is owed, or withdraws what a poll has put on offer |
| `UsbProgress.InDelivers` | Firmware/AVRUSBLPT/usbdrv/asmcommon.inc:129-148 | between polls an IN token gets the next packet owed, and NAK when nothing is owed any more |
| `UsbProgress.CycleDelivers` | Firmware/AVRUSBLPT/usbdrv/usbdrv.c:581-617 | after a poll that interrupts may disturb anywhere, an IN token leaves one more packet sent, or all of them |
| `UsbProgress.WholeReplyDelivered` | Firmware/AVRUSBLPT/usbdrv/usbdrv.c:504-560 | in every run without a new SETUP, with IN tokens and other packets anywhere: when as often as packets are owed a poll has been completed and an IN has come while the receive buffer was free, exactly the packets owed have been sent and their payloads are the reply |
| `UsbProgress.CycleExists` | Firmware/AVRUSBLPT/usbdrv/usbdrv.c:581-617 | from every state such a stretch of a run comes about once the main loop is left alone |
| `UsbProgress.RunGoesOn` | Firmware/AVRUSBLPT/usbdrv/usbdrv.c:581-617 | the runs that go on from a state of a run are runs from start-up |
| `UsbProgress.DataIsTaken` | Firmware/AVRUSBLPT/usbdrv/asmcommon.inc:104-127 | with the SETUP token remembered and the receive buffer free, its 8 bytes are acknowledged and become the request to answer, with nothing sent for it yet |
| `UsbProgress.SetupIsAccepted` | Firmware/AVRUSBLPT/usbdrv/asmcommon.inc:63-127 | at any point of the main loop at which the receive buffer is free, a SETUP token for the device and its 8 bytes are taken |
| `UsbProgress.FewOwed` | Firmware/AVRUSBLPT/usbdrv/usbdrv.c:320-367 | no reply needs more than 32 packets |
| `UsbProgress.ControlTransfer` | Firmware/AVRUSBLPT/usbdrv/usbdrv.c:434-606 | a whole transfer on every request: SETUP, then polls and IN tokens in any such run, and what was sent is exactly the reply to that request |
| `UsbOnTheLine.OwedPacketChecks` | Firmware/AVRUSBLPT/usbdrv/usbdrv.c:550 | every packet owed passes the CRC check |
| `UsbOnTheLine.AnswerOnTheWire` | Firmware/AVRUSBLPT/usbdrv/usbdrvasm12.inc:307-389 | what the answer puts on the wire is the sync pattern and what a receiver hears after it |
| `UsbOnTheLine.HostHearsNextOwed` | Firmware/AVRUSBLPT/usbdrv/asmcommon.inc:129-151 | a receiver at the other end of the line gets the next packet owed for the last accepted SETUP, bit for bit |
| `UsbOnTheLine.DriverIsCorrect` | Firmware/AVRUSBLPT/usbdrv/usbdrv.c:581-617 | freshness, order, address and the absence of EEPROM calls hold for the driver object in every state it can be in |
| `UsbDriver.Driver.constructor` | Firmware/AVRUSBLPT/usbdrv/usbdrv.c:24-50 | the initial values of the variables |
| `UsbDriver.Driver.SendAndReti` | Firmware/AVRUSBLPT/usbdrv/usbdrvasm12.inc:307-377 | the levels of the message, and the new address unless the pointer ends behind register r20 |
| `UsbDriver.Driver.SendHandshakeAndReti` | Firmware/AVRUSBLPT/usbdrv/usbdrvasm12.inc:282-293 | a handshake byte in register r20: its levels, and the address stays |
| `UsbDriver.Driver.SendTxBufAndReti` | Firmware/AVRUSBLPT/usbdrv/asmcommon.inc:145-151 | the transmit buffer: its levels, and the new address is taken over |
| `UsbDriver.Driver.HandleIn` | Firmware/AVRUSBLPT/usbdrv/asmcommon.inc:129-151 | NAK while a packet is taken, else the handshake in usbTxLen, else the packet, with usbTxLen set to NAK first |
| `UsbDriver.Driver.TakePacket` | Firmware/AVRUSBLPT/usbdrv/asmcommon.inc:121-126 | length and token are stored and the buffers swapped |
| `UsbDriver.Driver.HandleData` | Firmware/AVRUSBLPT/usbdrv/asmcommon.inc:104-127 | nothing without a token, NAK while a packet is taken, ACK without storing below four bytes, else ACK and take |
| `UsbDriver.Driver.Se0` | Firmware/AVRUSBLPT/usbdrv/asmcommon.inc:61-94 | data PIDs continue the last token, everything else must carry the address; what is not understood clears the token |
| `UsbDriver.Driver.PacketInterrupt` | Firmware/AVRUSBLPT/usbdrv/asmcommon.inc:42-151 | the whole interrupt on an arbitrary received line: new state and line levels of the answer are those of the abstract step |
| `UsbDriver.Driver.ReadRxLen` | Firmware/AVRUSBLPT/usbdrv/usbdrv.c:586-587 | first statement of a poll: the step of the abstract machine, and len is usbRxLen - 3 |
| `UsbDriver.Driver.ReadOffset` | Firmware/AVRUSBLPT/usbdrv/usbdrv.c:594 | the step of the abstract machine, and data lies in the half that was taken |
| `UsbDriver.Driver.ReleaseRxBuf` | Firmware/AVRUSBLPT/usbdrv/usbdrv.c:599 | the step of the abstract machine: usbRxLen is zero |
| `UsbDriver.Driver.TransmitIdle` | Firmware/AVRUSBLPT/usbdrv/usbdrv.c:602-603 | the step of the abstract machine: a packet is built when nothing is on offer and a message is pending |
| `UsbDriver.Driver.SampleReset` | Firmware/AVRUSBLPT/usbdrv/usbdrv.c:608-612 | a reset is seen if and only if twenty samples are low |
| `UsbDriver.Driver.ResetNewAddr` | Firmware/AVRUSBLPT/usbdrv/usbdrv.c:613 | the step of the abstract machine: the new address is zero |
| `UsbDriver.Driver.ResetDeviceAddr` | Firmware/AVRUSBLPT/usbdrv/usbdrv.c:614 | the step of the abstract machine: the address is zero |
| `UsbDriver.Driver.UsbPoll` | Firmware/AVRUSBLPT/usbdrv/usbdrv.c:581-620 | every execution, with any packets arriving between any two statements, is a run of the abstract machine from the first statement of a poll to the next |
| `UsbDriver.Driver.TestToken` | Firmware/AVRUSBLPT/usbdrv/usbdrv.c:451-453 | the step of the abstract machine: SETUP with eight bytes, another SETUP, or OUT, by usbRxToken |
| `UsbDriver.Driver.HandleOutData` | Firmware/AVRUSBLPT/usbdrv/usbdrv.c:485-496 | the step of the abstract machine: data of a control-out transfer |
| `UsbDriver.Driver.InitToggling` | Firmware/AVRUSBLPT/usbdrv/usbdrv.c:455 | the step of the abstract machine: DATA0 in the first byte of the buffer |
| `UsbDriver.Driver.AbortTransmit` | Firmware/AVRUSBLPT/usbdrv/usbdrv.c:456 | the step of the abstract machine: usbTxLen is NAK |
| `UsbDriver.Driver.ClearFlags` | Firmware/AVRUSBLPT/usbdrv/usbdrv.c:457-463 | the step of the abstract machine: flags clear, request type looked at |
| `UsbDriver.Driver.ClearReply` | Firmware/AVRUSBLPT/usbdrv/usbdrv.c:383 | the step of the abstract machine: the default reply byte is zero |
| `UsbDriver.Driver.UsbDriverDescriptor` | Firmware/AVRUSBLPT/usbdrv/usbdrv.c:320-366 | pointer, flag and length for a descriptor in flash |
| `UsbDriver.Driver.UsbDriverSetup` | Firmware/AVRUSBLPT/usbdrv/usbdrv.c:384-425 | the switch over standard requests |
| `UsbDriver.Driver.UsbFunctionSetup` | Firmware/AVRUSBLPT/main.c:151-226 | the switch over vendor requests, the mode clamped in place |
| `UsbDriver.Driver.LimitReplyLen` | Firmware/AVRUSBLPT/usbdrv/usbdrv.c:465-483 | limiting the reply length |
| `UsbDriver.Driver.SetMsgLen` | Firmware/AVRUSBLPT/usbdrv/usbdrv.c:484 | the step of the abstract machine: the message length is limited and stored |
| `UsbDriver.Driver.UsbProcessRx` | Firmware/AVRUSBLPT/usbdrv/usbdrv.c:434-497 | every execution is part of a run and ends with the packet handled |
| `UsbDriver.Driver.TakeBytes` | Firmware/AVRUSBLPT/usbdrv/usbdrv.c:543-547 | at most eight bytes, PID toggled |
| `UsbDriver.Driver.CopyByte` | Firmware/AVRUSBLPT/usbdrv/usbdrv.c:515-527 | the step of the abstract machine: the byte that the message pointer addresses is stored |
| `UsbDriver.Driver.AppendCrcLow` | Firmware/AVRUSBLPT/usbdrv/usbdrvasm.S:264-266 | the step of the abstract machine: the routine computes the CRC, the low byte is stored |
| `UsbDriver.Driver.AppendCrcHigh` | Firmware/AVRUSBLPT/usbdrv/usbdrvasm.S:267 | the step of the abstract machine: the high byte is stored |
| `UsbDriver.Driver.PublishPacket` | Firmware/AVRUSBLPT/usbdrv/usbdrv.c:551-558 | the step of the abstract machine: a packet that is not full ends the message, and usbTxLen is the length |
| `UsbDriver.Driver.UsbBuildTxBlock` | Firmware/AVRUSBLPT/usbdrv/usbdrv.c:538-560 | every execution is part of a run and ends with a packet on offer |
| `X86Instruction.HeadRoundTrip` | LptToUsbAdapter/LptPatchInjector/ld32.c:383-503 | prefixes, opcode, ModRM and SIB of a well-formed instruction are read back from the bytes that stand for them (Intel SDM Volume 2, section 2.1) |
| `X86Instruction.HeadIsThere` | LptToUsbAdapter/LptPatchInjector/ld32.c:383-503 | what is read is well formed and is what stands there |
| `X86Length.SkipPrefixes` | LptToUsbAdapter/LptPatchInjector/ld32.c:383-399 | the prefix loop: operand and address size, and -1 when the limit ends in it |
| `X86Length.OneByteOpcode` | LptToUsbAdapter/LptPatchInjector/ld32.c:431-458 | ModRM flag, immediate and offset sizes of a one-byte opcode, TEST included |
| `X86Length.TwoByteOpcode` | LptToUsbAdapter/LptPatchInjector/ld32.c:401-429 | the same behind 0F, with the third opcode byte skipped |
| `X86Length.SkipModRm` | LptToUsbAdapter/LptPatchInjector/ld32.c:460-503 | ModRM and SIB are counted and the displacement sized, in 16- and 32-bit addressing |
| `X86Length.AddOperands` | LptToUsbAdapter/LptPatchInjector/ld32.c:460-507 | the sum, or -1 when the limit ends before ModRM or SIB |
| `X86Length.LengthDisasm` | LptToUsbAdapter/LptPatchInjector/ld32.c:374-508 | the size of the instruction at the start of the buffer if its counted bytes are within the limit, else -1 |
| `X86Length.SelfDelimiting` | LptToUsbAdapter/LptPatchInjector/ld32.c:374-508 | encoded instruction followed by anything: its length is found if and only if the limit covers its counted bytes |
| `X86Length.OneReading` | LptToUsbAdapter/LptPatchInjector/ld32.c:374-508 | no byte string starts with two different instructions |
| `X86Length.LengthIsReal` | LptToUsbAdapter/LptPatchInjector/ld32.c:374-508 | a positive result is the size of a well-formed instruction standing there, at least one |
| `X86Length.LimitOnlyRefuses` | LptToUsbAdapter/LptPatchInjector/ld32.c:386-389 | a larger limit never changes a positive result |
| `X86Length.OwnBytesDecide` | LptToUsbAdapter/LptPatchInjector/ld32.c:374-508 | the result depends on the instruction's own bytes only |
| `X86Length.TailBound` | LptToUsbAdapter/LptPatchInjector/ld32.c:505 | displacement and immediate are at most eight bytes, five behind a three-byte opcode |
| `X86Length.TailBoundIsTight` | LptToUsbAdapter/LptPatchInjector/ld32.c:505 | eight is reached |
| `X86Tables.PrefixFormula` | LptToUsbAdapter/LptPatchInjector/ld32.c:82-88 | the prefixes are those of CHECK_PREFIX, for all 256 bytes |
| `X86Tables.ModRm2Table` | LptToUsbAdapter/LptPatchInjector/ld32.c:112-130 | the opcodes behind 0F with ModRM are the ones in modrm2_t |
| `X86Tables.Data12Formula` | LptToUsbAdapter/LptPatchInjector/ld32.c:175-187 | immediates behind 0F are those of CHECK_DATA12 |
| `X86Tables.RangeFormulas` | LptToUsbAdapter/LptPatchInjector/ld32.c:191-199 | CHECK_DATA662, CHECK_CRDR2 and CHECK_MEM67 |
| `X86Tables.ModRmFormula` | LptToUsbAdapter/LptPatchInjector/ld32.c:231-246 | one-byte opcodes with ModRM are those of CHECK_MODRM |
| `X86Tables.Data1Formula` | LptToUsbAdapter/LptPatchInjector/ld32.c:278-297 | 8-bit immediates are those of CHECK_DATA1 |
| `X86Tables.Data2Formula` | LptToUsbAdapter/LptPatchInjector/ld32.c:324-326 | 16-bit immediates are those of CHECK_DATA2 |
| `X86Tables.Data66Formula` | LptToUsbAdapter/LptPatchInjector/ld32.c:353-364 | immediates of the operand size are those of CHECK_DATA66 |
| `X86Tables.OneByteLengths` | LptToUsbAdapter/LptPatchInjector/ld32.c:374-508 | lengths without any table: instructions of one byte |
| `X86Tables.TwoByteLengths` | LptToUsbAdapter/LptPatchInjector/ld32.c:374-508 | an opcode and an 8-bit immediate: two |
| `X86Tables.FiveByteLengths` | LptToUsbAdapter/LptPatchInjector/ld32.c:374-508 | an opcode and a 32-bit immediate, offset or address: five |
| `X86Tables.FarLengths` | LptToUsbAdapter/LptPatchInjector/ld32.c:374-508 | RET imm16, ENTER, far CALL and JMP: three, four, seven |
| `X86Tables.OperandLengths` | LptToUsbAdapter/LptPatchInjector/ld32.c:374-508 | an opcode with ModRM: by its mode, register and SIB fields (SDM Volume 2, tables 2-2 and 2-3) |
| `X86Tables.OperandAndImmediateLengths` | LptToUsbAdapter/LptPatchInjector/ld32.c:374-508 | the same with an immediate of one or four bytes |
| `X86Tables.TestLengths` | LptToUsbAdapter/LptPatchInjector/ld32.c:374-508 | F6 and F7: only TEST has an immediate |
| `X86Tables.MovLength` | LptToUsbAdapter/LptPatchInjector/ld32.c:374-508 | MOV r32, [r32 + disp8] has three bytes, whatever follows |
| `X86Tables.PrefixedLengths` | LptToUsbAdapter/LptPatchInjector/ld32.c:374-508 | operand-size and address-size prefix |
| `X86Tables.TwoByteOpcodeLengths` | LptToUsbAdapter/LptPatchInjector/ld32.c:374-508 | long conditional jumps, CPUID, moves with control registers |
| `X86Tables.OperandLengthsBehind0F` | LptToUsbAdapter/LptPatchInjector/ld32.c:374-508 | SETcc, CMOVcc, MOVZX, MOVSX, IMUL, and BT with an immediate |
| `X86Tables.ThreeByteOpcodeLengths` | LptToUsbAdapter/LptPatchInjector/ld32.c:374-508 | 0F 38 and 0F 3A between registers: four and five |
| `X86Sweep.NoBoundaryInside` | LptToUsbAdapter/LptPatchInjector/LptPatchInjector.c:213-221 | no boundary of the linear sweep lies inside an instruction of it |
| `X86Sweep.FindBoundary` | LptToUsbAdapter/LptPatchInjector/LptPatchInjector.c:209-221 | the loop ends; it fails exactly when an instruction on the way exceeds the eight counted bytes, and otherwise finds the least boundary at or behind 6, never beyond 16 |
| `X86Sweep.SweepBoundIsTight` | LptToUsbAdapter/LptPatchInjector/LptPatchInjector.c:209-221 | 16 is reached |
| `X86Patch.SetJump` | LptToUsbAdapter/LptPatchInjector/LptPatchInjector.c:259-262 | PUSH imm32 and RET are written over the start of the buffer |
| `X86Patch.FillNops` | LptToUsbAdapter/LptPatchInjector/LptPatchInjector.c:258 | memset with 0x90 |
| `ByteMemory.Le32IsLowestFirst` | LptToUsbAdapter/LptPatchInjector/LptPatchInjector.c:257-262 | a word in memory: its bits lie lowest first, in the bit order of the line code |
| `ByteMemory.WordIsValue` | LptToUsbAdapter/LptPatchInjector/LptPatchInjector.c:257-262 | a word is read from its bits in the same order |
| `X86Patch.JumpBytes` | LptToUsbAdapter/LptPatchInjector/LptPatchInjector.c:259-262 | 0x68, the target lowest byte first, 0xc3 |
| `X86Patch.JumpExample` | LptToUsbAdapter/LptPatchInjector/LptPatchInjector.c:259-262 | a jump to 0x00401004 is 68 04 10 40 00 C3 |
| `X86Patch.SiteBytes` | LptToUsbAdapter/LptPatchInjector/LptPatchInjector.c:258-262 | the site holds that jump to the worker behind its doubleword, and NOPs |
| `X86Patch.CopyWorker` | LptToUsbAdapter/LptPatchInjector/LptPatchInjector.c:235-251 | three writes; on success worker, callee address in its first doubleword and displaced bytes lie one behind the other |
| `X86Patch.RedirectSite` | LptToUsbAdapter/LptPatchInjector/LptPatchInjector.c:253-274 | the jump at the site, of which the bytes written are counted, then the jump back; nothing else changes |
| `X86Patch.Install` | LptToUsbAdapter/LptPatchInjector/LptPatchInjector.c:235-274 | the five writes: how many are complete, and what stands at the site when they end |
| `X86Patch.PatchIoInstruction` | LptToUsbAdapter/LptPatchInjector/LptPatchInjector.c:195-283 | on success the new memory holds callee address, worker, bytes 1 to len_total - 1 and jump back without gap or overlap, the site holds jump and NOPs, all other memory is as before; it fails exactly for another width or size, beyond the budget, or when a call fails; how many writes are complete and how many bytes of the new code stand at the site then follows from the calls, and the old memory is intact if and only if those bytes are the old ones |
| `X86Patch.PatchChangesOpcode` | LptToUsbAdapter/LptPatchInjector/LptPatchInjector.c:258-264 | the first byte written at the site changes a port instruction |
| `X86Patch.LastWriteFails` | LptToUsbAdapter/LptPatchInjector/LptPatchInjector.c:264-274 | every program that can be patched can be left with the jump at the site and no jump back |
| `X86Trampoline.FindCallee` | LptToUsbAdapter/LptPatchInjector/injectables.asm:13-16 | CALL, POP, SUB ECX and MOV find the doubleword at the start of the worker wherever it lies |
| `X86Trampoline.OutWorker` | LptToUsbAdapter/LptPatchInjector/injectables.asm:10-26 | out_byte_fn calls the port function once with DX and AL, for every function that keeps the calling convention with any given amount of stack; all registers and all memory outside the free stack are as before |
| `X86Trampoline.InWorker` | LptToUsbAdapter/LptPatchInjector/injectables.asm:28-47 | in_byte_fn: the answer in AL, the other 24 bits of EAX and everything else as before |
| `X86Simulation.PatchedOutSimulates` | LptToUsbAdapter/LptPatchInjector/LptPatchInjector.c:258-274 | twin programs, one in the memory before the patch and one in the patched memory, both at the OUT: the original makes the access and executes the instructions behind it, the patched one goes through the trampoline, and both arrive behind the patch as twins again, with the same registers, ESP and device history and the same memory outside free stack, site and trampoline |
| `X86Simulation.PatchedInSimulates` | LptToUsbAdapter/LptPatchInjector/LptPatchInjector.c:258-274 | the same for IN |
| `X86Simulation.RegisterCodeIsDisplaceable` | LptToUsbAdapter/LptPatchInjector/LptPatchInjector.c:247-251 | computations between registers can be displaced |
| `X86Simulation.LoadIsDisplaceable` | LptToUsbAdapter/LptPatchInjector/LptPatchInjector.c:247-251 | a load through a register from memory that the program may use can be displaced |
| `X86Simulation.StoreIsDisplaceable` | LptToUsbAdapter/LptPatchInjector/LptPatchInjector.c:247-251 | so can a store through a register |
| `X86Simulation.PopIsDisplaceable` | LptToUsbAdapter/LptPatchInjector/LptPatchInjector.c:247-251 | so can POP |
| `X86Simulation.PushIsDisplaceable` | LptToUsbAdapter/LptPatchInjector/LptPatchInjector.c:247-251 | so can PUSH |
| `X86Simulation.SequenceIsDisplaceable` | LptToUsbAdapter/LptPatchInjector/LptPatchInjector.c:247-251 | and so can one after the other |
| `X86Simulation.PlainWriterReturns` | LptToUsbAdapter/LptPatchInjectee/LptPatchInjectee.c:236-259 | a port function that uses its stack in any way, makes its access and returns keeps the calling convention |
| `X86Simulation.PlainReaderReturns` | LptToUsbAdapter/LptPatchInjectee/LptPatchInjectee.c:261-287 | the same for reads |
| `X86Simulation.PatchLeadsThere` | LptToUsbAdapter/LptPatchInjector/LptPatchInjector.c:223-274 | a successful patch makes the patched program the twin of the program in the memory before it |
| `X86Dispatch.Patchable` | LptToUsbAdapter/LptPatchInjector/LptPatchInjector.c:202-205 | what can be patched are EE and EC: 8 bits, one byte, port in DX |
| `X86Dispatch.PatchException` | LptToUsbAdapter/LptPatchInjector/LptPatchInjector.c:284-321 | from the bytes at the exception: EE gets the worker for OUT and the address of WritePort8, EC the one for IN and ReadPort8; anything else leaves the memory intact |
| `X86Dispatch.PatchedAccess` | LptToUsbAdapter/LptPatchInjector/LptPatchInjector.c:195-283 | from a successful patch to the end of the trampoline: a thread at EE makes the port write, one at EC the port read, and the two programs arrive behind the patch as twins |
| `X86Dispatch.OutBytes` | LptToUsbAdapter/LptPatchInjector/injectables.asm:10-26 | the bytes of out_byte_fn |
| `X86Dispatch.InBytes` | LptToUsbAdapter/LptPatchInjector/injectables.asm:28-47 | the bytes of in_byte_fn |
| `X86Dispatch.WorkersDecode` | LptToUsbAdapter/LptPatchInjector/injectables.asm:10-47 | the length disassembler finds every instruction of the workers where the model has it |
| `PortModes.IsBypassed` | LptToUsbAdapter/LptPatchInjectee/LptPatchInjectee.c:240-247 | the search loop |
| `PortModes.WritePort8` | LptToUsbAdapter/LptPatchInjectee/LptPatchInjectee.c:236-259 | nothing on a bypassed port, a register write on the five LPT1 ports, else the process ends; the 16-bit subtraction included |
| `PortModes.ReadPort8` | LptToUsbAdapter/LptPatchInjectee/LptPatchInjectee.c:261-287 | the same for reads, with zero on a bypassed port |
| `PortModes.DecodeIoInstruction` | LptToUsbAdapter/LptPatchInjector/LptPatchInjector.c:157-193 | port, width, direction and size of the twelve accepted port instructions |
| `PortModes.PortOpRoundTrip` | LptToUsbAdapter/LptPatchInjector/LptPatchInjector.c:157-193 | every IN and OUT of the instruction set, E4 to E7 and EC to EF, with the prefix for 16 bits, is decoded from its bytes to its direction, width, port and size |
| `PortModes.PortOpIsThere` | LptToUsbAdapter/LptPatchInjector/LptPatchInjector.c:157-193 | what is decoded is such an instruction |
| `PortModes.IoSizeIsLength` | LptToUsbAdapter/LptPatchInjector/LptPatchInjector.c:164-175 | the size that is skipped is the size that the length disassembler finds |
| `PortModes.ProcessIoException` | LptToUsbAdapter/LptPatchInjector/LptPatchInjector.c:285-410 | interception: EIP behind the instruction, EAX as the access requires, every other register as before; exactly when it is handled, and that nothing changes when it is not |
| `PortModes.ModesAgree` | LptToUsbAdapter/LptPatchInjector/LptPatchInjector.c:322-390 | with base address 0x378 interception and worker agree on every port, device and register content if and only if it is not an IN with AL other than zero on a bypassed port |
| `PortModes.BypassedReadDiffers` | LptToUsbAdapter/LptPatchInjectee/LptPatchInjectee.c:261-268 | an IN from a bypassed port with AL = 1 on which they differ |
| `PortModes.OnlyLpt1Agrees` | LptToUsbAdapter/LptPatchInjectee/LptPatchInjectee.c:249-253 | with any other base address they do not agree on every port |
| `PortModes.LibraryWrites` | LptToUsbAdapter/LptPatchInjectee/LptPatchInjectee.c:236-259 | ports 0x378 to 0x37C are registers 0 to 4, a write carries AL |
| `PortModes.LibraryReads` | LptToUsbAdapter/LptPatchInjectee/LptPatchInjectee.c:261-287 | a read puts the answer into AL and keeps the rest of EAX |
| `PortModes.PatchedEqualsIntercepted` | LptToUsbAdapter/LptPatchInjector/LptPatchInjector.c:318-390 | from the bytes EE and EC: what the trampoline does to a thread is what interception does to its context |
| `FirmwareLoader.CommandRoundTrip` | LptToUsbAdapter/UsbLptLib/UsbLptLib.c:184-214 | both ends read the same command in a packet |
| `FirmwareLoader.BlockBytes` | LptToUsbAdapter/UsbLptLib/UsbLptLib.c:184-202 | a block in its packet: 0x81, the address lowest byte first, the data |
| `FirmwareLoader.EndBytes` | LptToUsbAdapter/UsbLptLib/UsbLptLib.c:216-230 | the end in its packet, 0x82 and the size lowest byte first, and the erasure, 0x80 |
| `FirmwareLoader.BulkCmd` | LptToUsbAdapter/UsbLptLib/UsbLptLib.c:110-145 | command byte and data in one packet, then the oldest reply that nobody has read |
| `FirmwareLoader.EraseFlash` | LptToUsbAdapter/UsbLptLib/UsbLptLib.c:147-163 | one attempt; true if and only if that reply is one zero byte |
| `FirmwareLoader.SendFirmware` | LptToUsbAdapter/UsbLptLib/UsbLptLib.c:184-214 | the same for a block |
| `FirmwareLoader.SendFinalize` | LptToUsbAdapter/UsbLptLib/UsbLptLib.c:216-243 | the same for the end |
| `FirmwareLoader.AttemptFacts` | LptToUsbAdapter/UsbLptLib/UsbLptLib.c:110-145 | an attempt touches only its own flash cells, and if no zero byte was waiting to be read an acknowledged command has been carried out |
| `FirmwareLoader.AttemptExact` | LptToUsbAdapter/UsbLptLib/UsbLptLib.c:127-142 | whatever the device and the pipes do, an acknowledged command has been carried out if and only if no zero byte was the next reply to read when it was sent |
| `FirmwareLoader.SendBlock` | LptToUsbAdapter/UsbLptLib/UsbLptLib.c:262-277 | the retry loop of at most three attempts |
| `FirmwareLoader.TriesFacts` | LptToUsbAdapter/UsbLptLib/UsbLptLib.c:262-277 | all attempts are at the same block, at most three; success means that the last one was acknowledged |
| `FirmwareLoader.ThreeAttempts` | LptToUsbAdapter/UsbLptLib/UsbLptLib.c:253-277 | no block is given to the pipe more than three times, and one undisturbed turn of the next three is enough when every answer is read |
| `FirmwareLoader.BlocksTile` | LptToUsbAdapter/UsbLptLib/UsbLptLib.c:259-261 | the blocks lie one behind the other and make up the image |
| `FirmwareLoader.NextOffset` | LptToUsbAdapter/UsbLptLib/UsbLptLib.c:258-259 | the 32-bit offset does not wrap when the size rounded up to blocks fits |
| `FirmwareLoader.LoadBlocks` | LptToUsbAdapter/UsbLptLib/UsbLptLib.c:257-278 | the block loop |
| `FirmwareLoader.SendAllLogs` | LptToUsbAdapter/UsbLptLib/UsbLptLib.c:257-278 | the blocks are acknowledged in order, each after one to three attempts |
| `FirmwareLoader.SendAllHolds` | LptToUsbAdapter/UsbLptLib/UsbLptLib.c:257-278 | what the acknowledged blocks tile is in the flash behind what was there, if no zero byte was waiting |
| `FirmwareLoader.LoadFacts` | LptToUsbAdapter/UsbLptLib/UsbLptLib.c:245-287 | true means that the erasure came first, then every block in order after at most three attempts, then the end, all acknowledged, and, if no command was sent while a zero byte was waiting to be read, that the flash holds the image; false means that the end was not acknowledged |
| `FirmwareLoader.LoadIsReliable` | LptToUsbAdapter/UsbLptLib/UsbLptLib.c:245-287 | known before the call: if no reply is left over and every attempt that is answered reports success in writing and reading, true means that the image is there, whatever is lost, spoilt or answered otherwise |
| `FirmwareLoader.LoadFirmware` | LptToUsbAdapter/UsbLptLib/UsbLptLib.c:245-287 | for every device, result and device are those of the specification; true means that the image is there if no reply is left over before the call and every answered attempt reports success |
| `FirmwareLoader.UndisturbedLoad` | LptToUsbAdapter/UsbLptLib/UsbLptLib.c:245-287 | without a fault the loader returns true and the image is there |
| `FirmwareLoader.TrueOverWrongFlash` | LptToUsbAdapter/UsbLptLib/UsbLptLib.c:262-277 | a run in which the loader returns true and the second block is not in the flash |

## Left out

- Cycle counts, phase corrections, the search for the sync edge and the electrical side of SE0: the model has one symbol for each bit time, and the end of a packet is a symbol. A sample between two bit times shows either of its neighbours.
- usbdrvasm16.inc, usbdrvasm165.inc, usbdrvasm18-crc.inc and usbdrvasm20.inc are not part of this model; they are variants of the modules that are.
- `UsbDriver.Driver` uses the 12 MHz receiver and transmitter whatever the clock.
- The interrupt is one atomic step, from the end of a received packet to the end of the answer; a second packet that arrives while it is at work is a second interrupt after it.
- UsbTheorems.SetAddressTiming: says nothing after a bus reset, because the reset sets the address to zero at a time of its own.
- Interrupt endpoints, HALT, flow control, long transfers and CRC checking on reception: disabled in usbconfig.h.
- usbFunctionRead and usbFunctionWrite: only counted, for they are proved never to be called; the EEPROM behind them is left out.
- lpt.c: the printer-port registers are one arbitrary byte for each GET_REG; SET_MODE and SET_REG have no effect on the model.
- x86 flags, segment registers, self-modifying displaced code, and displaced instructions that use the instruction pointer: the simulation assumes their absence.
- X86Trampoline.OutWorker: the port function may write the free stack and its arguments only; its own static data and those of the libraries it calls lie outside the modelled memory.
- X86Simulation.PatchedOutSimulates: the displaced instructions are one function on machine states instead of an instruction set, because any instruction set would be an excerpt.
- The alternative form of CHECK_MODRM2 without a table, marked unfinished in ld32.c.
- PrintInstructionDumpAt, logging, the debug event loop, process and module lookup, Detours hooks, registry filters, settings and windows.
- WinUSB, libusb and the wrappers around them: a pipe is an operation that may fail, before or after taking effect.
- UsbLpt_FirmwareUpdate: the choice of the image by device version; the SHA-512 value is passed through.
- FirmwareLoader.LoadFirmware: requires a positive block size and a size that fits into 32 bits after rounding up to blocks, because otherwise the source's 32-bit offset wraps around (or, with block size zero, stands still) and its loop goes round again.
