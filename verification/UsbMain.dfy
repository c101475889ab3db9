/** The main loop: usbPoll, usbProcessRx, usbDriverSetup, usbFunctionSetup and usbBuildTxBlock as
    small steps. */
module UsbMain {
  import opened Bits
  import opened Crc16
  import opened UsbState

  /** What the outside decides in a step: whether the line shows a reset, and what an LPT register holds. */
  datatype Env = Env(reset: bool, lpt: byte)

  /** What a SETUP handler leaves: the state and the length of the reply. */
  datatype Handled = Handled(s: State, len: byte)

  /** usbDriverDescriptor on wValue. An unknown descriptor leaves the pointer alone. */
  function DriverDescriptor(s: State, low: byte, high: byte): Handled {
    var found := DescriptorFor(low, high);
    if found == [] then Handled(s.(flagRom := true), 0)
    else Handled(s.(flagRom := true, msgPtr := MsgPtr(Rom(found), 0)), |found|)
  }

  function DescriptorFor(low: byte, high: byte): (r: seq<byte>)
    ensures |r| < 255
  {
    if high == 1 then DEVICE_DESCRIPTOR
    else if high == 2 then CONFIGURATION_DESCRIPTOR
    else if high == 3 then
      if low == 0 then STRING_LANGUAGES
      else if low == 1 then STRING_VENDOR
      else if low == 2 then STRING_PRODUCT
      else if low == 0xEE then STRING_OS
      else []
    else []
  }

  /** usbDriverSetup after `dataPtr[0] = 0`. */
  function DriverSetup(s: State, rq: seq<byte>): (h: Handled)
    requires |rq| == 8 && |s.txBuf| == BUFSIZE
    ensures h.len != NO_MSG && |h.s.txBuf| == BUFSIZE && h.s.txBuf[0] == s.txBuf[0]
    ensures h.s == s.(txBuf := h.s.txBuf, newAddr := h.s.newAddr, config := h.s.config,
                      msgPtr := h.s.msgPtr, flagRom := h.s.flagRom)
  {
    var tail := MsgPtr(TxBuffer, 9);
    match rq[1]
    case 0 => Handled(s.(txBuf := s.txBuf[10 := 0], msgPtr := tail), 2)        // GET_STATUS
    case 5 => Handled(s.(newAddr := rq[2], msgPtr := tail), 0)                 // SET_ADDRESS
    case 6 => DriverDescriptor(s, rq[2], rq[3])                                // GET_DESCRIPTOR
    case 8 => Handled(s.(msgPtr := MsgPtr(Configuration, 0)), 1)               // GET_CONFIGURATION
    case 9 => Handled(s.(config := rq[2], msgPtr := tail), 0)                  // SET_CONFIGURATION
    case 10 => Handled(s.(msgPtr := tail), 1)                                  // GET_INTERFACE
    case _ => Handled(s.(msgPtr := tail), 0)
  }

  /** usbFunctionSetup of main.c; `data` is where the request lies, for SET_MODE clamps the mode in place. */
  function FunctionSetupOf(s: State, data: nat, rq: seq<byte>, lpt: byte): (h: Handled)
    requires |rq| == 8 && data + 8 <= |s.rxBuf|
    ensures h.len != NO_MSG && |h.s.rxBuf| == |s.rxBuf|
    ensures h.s == s.(rxBuf := h.s.rxBuf, ioByte := h.s.ioByte, msgPtr := h.s.msgPtr)
  {
    var wValue, wIndex := WordOf(rq[2], rq[3]), WordOf(rq[4], rq[5]);
    if rq[0] % 128 != 0x40 then Handled(s, 0)
    else match rq[1]
      case 126 => if wIndex == 4 then Handled(s.(msgPtr := MsgPtr(Ram(MS_DESCRIPTOR), 0)), 40) else Handled(s, 0)
      case 7 => Handled(s.(msgPtr := MsgPtr(Ram(s.version), 0)), 8)
      case 8 => Handled(if wValue > 2 then s.(rxBuf := s.rxBuf[data + 2 := 2][data + 3 := 0]) else s, 0)
      case 10 => Handled(s.(ioByte := if wValue <= 4 then lpt else 0, msgPtr := MsgPtr(IoByte, 0)), 1)
      case _ => Handled(s, 0)
  }

  /** Limit a length to wLength, given by its two bytes. */
  function AtMost(replyLen: byte, low: byte, high: byte): byte {
    if high == 0 && replyLen > low then low else replyLen
  }

  /** The end of usbProcessRx for a SETUP: limit the reply to wLength. */
  function LimitReply(s: State, rq: seq<byte>, replyLen: byte): State
    requires |rq| == 8
  {
    if replyLen == NO_MSG then
      s.(msgLen := if rq[0] >= 0x80 then rq[6] else replyLen, flagUser := true)
    else
      s.(msgLen := AtMost(replyLen, rq[6], rq[7]))
  }

  /** The request that the main loop reads at `data`. */
  function Request(s: State, data: nat): seq<byte>
    requires data + 8 <= |s.rxBuf|
  {
    s.rxBuf[data..data + 8]
  }

  /** Buffer sizes and local variables are in range. */
  predicate InRange(s: State) { Buffers(s.rxBuf, s.off, s.txBuf, s.version) && PcInRange(s.pc) }

  predicate PcInRange(pc: Pc) {
    match pc
    case Process(Token(arg, _)) => arg + 8 <= 2 * BUFSIZE
    case Process(Setup(data, _)) => data + 8 <= 2 * BUFSIZE
    case Build(at) => BuildInRange(at)
    case _ => true
  }

  predicate BuildInRange(at: BuildPc) {
    match at
    case Toggling => true
    case Copy(wantLen, i) => i < wantLen <= 8
    case AppendLow(count) => count <= 8
    case AppendHigh(count, _) => count <= 8
    case Publish(txLen) => 4 <= txLen <= 12
  }

  /** usbFunctionRead and usbFunctionWrite: `bytesRemaining` starts at zero and is only ever lowered, so the
      first returns no bytes and the second reports the end of the transfer. */
  function UserCalled(s: State): State {
    s.(history := s.history.(userCalls := s.history.userCalls + 1))
  }

  // ---- The steps ----

  /** usbProcessRx for a SETUP of the right length; `data` is where the request lies. */
  function SetupStep(s: State, data: nat, at: SetupPc, env: Env): State
    requires InRange(s) && data + 8 <= 2 * BUFSIZE
  {
    match at
    case Toggling => s.(txBuf := s.txBuf[0 := PID_DATA0], pc := Process(Setup(data, Abort)))
    case Abort => s.(txLen := PID_NAK, pc := Process(Setup(data, Flags)))
    case Flags =>
      var standard := Request(s, data)[0] / 32 % 4 == 0;
      s.(flagRom := false, flagUser := false,
         pc := Process(Setup(data, if standard then DriverClear else SetupPc.Function)))
    case DriverClear => s.(txBuf := s.txBuf[9 := 0], pc := Process(Setup(data, DriverSwitch)))
    case DriverSwitch =>
      var h := DriverSetup(s, Request(s, data));
      h.s.(pc := Process(Setup(data, SetupPc.Limit(h.len))))
    case Function =>
      var h := FunctionSetupOf(s, data, Request(s, data), env.lpt);
      h.s.(pc := Process(Setup(data, SetupPc.Limit(h.len))))
    case Limit(replyLen) =>
      LimitReply(s, Request(s, data), replyLen).(pc := RxDone, history := s.history.(pending := false))
  }

  function ProcessStep(s: State, at: ProcessPc, env: Env): State
    requires InRange(s) && (at.Setup? ==> at.data + 8 <= 2 * BUFSIZE)
  {
    match at
    case Token(arg, len) =>
      s.(pc := if s.rxTok != PID_SETUP then Process(OutData)
               else if len != 8 then RxDone
               else Process(Setup(arg, SetupPc.Toggling)))
    case OutData =>
      if s.flagUser then UserCalled(s).(msgLen := 0, pc := RxDone) else s.(pc := RxDone)
    case Setup(data, rest) => SetupStep(s, data, rest, env)
  }

  /** usbBuildTxBlock. */
  function BuildStep(s: State, at: BuildPc): State
    requires InRange(s) && BuildInRange(at)
  {
    match at
    case Toggling =>
      var wantLen := if s.msgLen > 8 then 8 else s.msgLen;
      var t := s.(msgLen := s.msgLen - wantLen, txBuf := s.txBuf[0 := Toggle(s.txBuf[0])]);
      if wantLen == 0 then t.(pc := Build(AppendLow(0)))
      else if s.flagUser then UserCalled(t).(pc := Build(AppendLow(0)))
      else t.(pc := Build(Copy(wantLen, 0)))
    case Copy(wantLen, i) =>
      var t := s.(txBuf := s.txBuf[1 + i := ReadByte(s, i)]);
      if i + 1 < wantLen then t.(pc := Build(Copy(wantLen, i + 1)))
      else t.(msgPtr := MsgPtr(s.msgPtr.region, s.msgPtr.off + wantLen), pc := Build(AppendLow(wantLen)))
    case AppendLow(count) =>
      var data := s.txBuf[1..1 + count];
      s.(txBuf := s.txBuf[1 + count := CrcLow(data)], pc := Build(AppendHigh(count, CrcHigh(data))))
    case AppendHigh(count, crcHigh) => s.(txBuf := s.txBuf[2 + count := crcHigh], pc := Build(Publish(count + 4)))
    case Publish(len) => s.(msgLen := if len < 12 then NO_MSG else s.msgLen, txLen := len, pc := ResetTest)
  }

  /** usbPoll, in which the other two are inlined. */
  function MainStep(s: State, env: Env): State
    requires InRange(s)
  {
    match s.pc
    case Idle => s.(pc := if s.rxLen >= 3 then RxArgs(s.rxLen - 3) else TxTest)
    case RxArgs(len) => s.(pc := Process(Token(BUFSIZE + 1 - s.off, len)))
    case Process(at) => ProcessStep(s, at, env)
    case RxDone => s.(rxLen := 0, pc := TxTest)
    case TxTest => s.(pc := if IsHandshake(s.txLen) && s.msgLen != NO_MSG then Build(BuildPc.Toggling) else ResetTest)
    case Build(at) => BuildStep(s, at)
    case ResetTest => s.(pc := if env.reset then ResetNew else Idle)
    case ResetNew => s.(newAddr := 0, pc := ResetAddr, history := s.history.(wasReset := true))
    case ResetAddr => s.(devAddr := 0, pc := Idle, history := s.history.(wasReset := true))
  }
}
