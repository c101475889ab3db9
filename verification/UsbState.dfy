/** The variables of the V-USB driver that the main loop and the packet interrupt work on,
    and the constants of usbdrv.h, usbconfig.h and main.c. */
module UsbState {
  import opened Bits

  const PID_SETUP: byte := 0x2d
  const PID_OUT: byte := 0xe1
  const PID_IN: byte := 0x69
  const PID_DATA0: byte := 0xc3
  const PID_DATA1: byte := 0x4b
  const PID_ACK: byte := 0xd2
  const PID_NAK: byte := 0x5a

  /** USB_NO_MSG */
  const NO_MSG: byte := 255

  /** All handshake tokens have bit 4 set; data lengths (including the sync byte) are 4 to 12. */
  predicate IsHandshake(len: byte) { len / 16 % 2 == 1 }

  /** `^ (USBPID_DATA0 ^ USBPID_DATA1)` on a data PID. */
  function Toggle(pid: byte): byte {
    if pid == PID_DATA0 then PID_DATA1 else if pid == PID_DATA1 then PID_DATA0 else ByteOf(Xor(BitsOf(pid), BitsOf(0x88)))
  }

  /** `lsl` on an address: the comparison is made on addresses shifted left by one. */
  function ShiftLeft(b: byte): byte { (2 * b as int) % 256 }

  /** Two bytes as an unsigned number, low byte first. */
  function WordOf(low: byte, high: byte): nat { low as int + 256 * (high as int) }

  // ---- Message memory ----

  /** Where a reply lies. The transmit buffer and two variables are read live. */
  datatype Region = Rom(bytes: seq<byte>) | Ram(bytes: seq<byte>) | TxBuffer | Configuration | IoByte

  datatype MsgPtr = MsgPtr(region: Region, off: nat)

  // ---- The main loop ----

  /** Where the main loop is, with its local variables. One step of it makes at most one access to a
      variable that the interrupt also uses, or stores one byte. */
  datatype Pc =
    | Idle
    | RxArgs(len: nat)
    | Process(at: ProcessPc)
    | RxDone
    | TxTest
    | Build(tx: BuildPc)
    | ResetTest
    | ResetNew
    | ResetAddr

  /** In usbProcessRx. */
  datatype ProcessPc = Token(arg: nat, len: nat) | OutData | Setup(data: nat, rest: SetupPc)

  datatype SetupPc = Toggling | Abort | Flags | DriverClear | DriverSwitch | Function | Limit(replyLen: byte)

  /** In usbBuildTxBlock. */
  datatype BuildPc =
    | Toggling
    | Copy(wantLen: nat, i: nat)
    | AppendLow(count: nat)
    | AppendHigh(count: nat, crcHigh: byte)
    | Publish(txLen: byte)

  // ---- The state ----

  /** The last four fields are not in the program: they record what has happened. */
  datatype State = State(
    rxBuf: seq<byte>,         // usbRxBuf
    off: nat,                 // usbInputBufOffset
    rxLen: byte,              // usbRxLen
    curTok: byte,             // usbCurrentTok
    rxTok: byte,              // usbRxToken
    txLen: byte,              // usbTxLen
    txBuf: seq<byte>,         // usbTxBuf
    devAddr: byte,            // usbDeviceAddr, shifted left by one
    newAddr: byte,            // usbNewDeviceAddr
    config: byte,             // usbConfiguration
    ioByte: byte,             // IoByte
    version: seq<byte>,       // Version, constant after start-up
    msgPtr: MsgPtr,           // usbMsgPtr
    msgLen: byte,             // usbMsgLen
    flagRom: bool,            // USB_FLG_MSGPTR_IS_ROM
    flagUser: bool,           // USB_FLG_USE_USER_RW
    pc: Pc,
    history: History
  )

  /** `setup`: the last accepted 8-byte SETUP (empty before the first). `pending`: the main loop has not
      finished with it. `accepted`: the last accepted packet. `sent`: the data packets sent since the SETUP
      was accepted. `oldAddr`, `oldNew`: usbDeviceAddr and usbNewDeviceAddr at that time. `wasReset`: a bus reset
      has changed an address since. `userCalls`: calls of usbFunctionRead and usbFunctionWrite. */
  datatype History = History(
    setup: seq<byte>, pending: bool, accepted: seq<byte>, sent: seq<seq<byte>>,
    oldAddr: byte, oldNew: byte, wasReset: bool, userCalls: nat
  )

  predicate Buffers(rxBuf: seq<byte>, off: nat, txBuf: seq<byte>, version: seq<byte>) {
    |rxBuf| == 2 * BUFSIZE && (off == 0 || off == BUFSIZE) && |txBuf| == BUFSIZE && |version| == 8
  }

  /** usbRxLen: empty, or a packet with data. */
  predicate Received(len: byte) { len == 0 || 4 <= len <= BUFSIZE }

  /** usbTxLen: the handshake NAK, or the length of a packet with its sync byte. */
  predicate Sendable(len: byte) { if IsHandshake(len) then len == PID_NAK else 4 <= len <= 12 }

  function Fill(n: nat, b: byte): (s: seq<byte>)
    ensures |s| == n
  {
    seq(n, _ => b)
  }

  /** After start-up: the initialisers of usbdrv.c:24-50, everything else zero. */
  function Init(version: seq<byte>): State {
    State(Fill(2 * BUFSIZE, 0), 0, 0, 0, 0, PID_NAK, Fill(BUFSIZE, 0), 0, 0, 0, 0, version,
          MsgPtr(Ram([]), 0), NO_MSG, false, false, Idle,
          History([], false, [], [], 0, 0, false, 0))
  }

  /** The byte that usbDeviceRead loads: from flash or from RAM according to the flag. */
  function ReadByte(s: State, i: nat): byte {
    var at := s.msgPtr.off + i;
    match s.msgPtr.region
    case Rom(bytes) => if s.flagRom && at < |bytes| then bytes[at] else 0
    case Ram(bytes) => if !s.flagRom && at < |bytes| then bytes[at] else 0
    case TxBuffer => if !s.flagRom && at < |s.txBuf| then s.txBuf[at] else 0
    case Configuration => if !s.flagRom && at == 0 then s.config else 0
    case IoByte => if !s.flagRom && at == 0 then s.ioByte else 0
  }

  function ReadBytes(s: State, i: nat, n: nat): (r: seq<byte>)
    ensures |r| == n && forall k :: 0 <= k < n ==> r[k] == ReadByte(s, i + k)
  {
    seq<byte>(n, k requires 0 <= k < n => ReadByte(s, i + k))
  }

  // ---- Constants ----

  const DEVICE_DESCRIPTOR: seq<byte> :=
    [18, 1, 0x00, 0x02, 0xff, 0, 0, 8, 0x09, 0x12, 0x53, 0x41, 0x00, 0x01, 1, 2, 0, 1]

  const CONFIGURATION_DESCRIPTOR: seq<byte> :=
    [9, 2, 18, 0, 1, 1, 0, 0x80, 50, 9, 4, 0, 0, 0, 0, 0, 0, 0]

  const STRING_LANGUAGES: seq<byte> := [4, 3, 0x09, 0x04]

  /** "a.sakharov" */
  const STRING_VENDOR: seq<byte> :=
    [22, 3, 97, 0, 46, 0, 115, 0, 97, 0, 107, 0, 104, 0, 97, 0, 114, 0, 111, 0, 118, 0]

  /** "Virtual EPP" */
  const STRING_PRODUCT: seq<byte> :=
    [24, 3, 86, 0, 105, 0, 114, 0, 116, 0, 117, 0, 97, 0, 108, 0, 32, 0, 69, 0, 80, 0, 80, 0]

  /** "MSFT100" and the request code of the OS feature descriptor */
  const STRING_OS: seq<byte> := [18, 3, 77, 0, 83, 0, 70, 0, 84, 0, 49, 0, 48, 0, 48, 0, 126, 0]

  /** msExtCompatDescriptor with the compatible ID "WINUSB" */
  const MS_DESCRIPTOR: seq<byte> :=
    [40, 0, 0, 0, 0x00, 0x01, 0x04, 0x00, 1, 0, 0, 0, 0, 0, 0, 0,
     0, 1, 87, 73, 78, 85, 83, 66, 0, 0, 0, 0, 0, 0, 0, 0, 0, 0, 0, 0, 0, 0, 0, 0]
}
