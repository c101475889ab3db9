/** The driver as it is written: global variables, two buffers, the packet interrupt on a received line, and
    usbPoll with the interrupt striking between its statements. */
module UsbDriver {
  import opened Bits
  import opened Crc16
  import Crc16Asm
  import opened LineCode
  import Transmit
  import Receive
  import opened UsbState
  import opened UsbMain
  import opened UsbInterrupt
  import opened UsbInvariant
  import opened UsbDelivery
  import opened UsbRuns

  /** The levels of an answer on the line, one for each bit time. */
  function Levels(a: Answer): seq<bool> {
    match a
    case Silence => []
    case Handshake(pid) => Encode(SYNC + BitStream([pid]), 0, IDLE)
    case Data(packet) => Encode(SYNC + BitStream(packet), 0, IDLE)
  }

  /** What the receiver makes of a line that starts after the sync pattern. */
  function FrameOf(line: seq<Receive.Symbol>): (f: Frame)
    ensures ValidFrame(f)
  {
    HeardIsFrame(line, Receive.AFTER_SYNC, []);
    Receive.Listen(line, Receive.AFTER_SYNC, [])
  }

  lemma {:induction false} HeardIsFrame(line: seq<Receive.Symbol>, s: Receive.Rx, got: seq<byte>)
    requires |got| <= BUFSIZE
    ensures ValidFrame(Receive.Listen(line, s, got))
    decreases BUFSIZE - |got|, 9
  {
    hide Receive.TakeBit, Receive.DropStuffed, Receive.NextBit, Receive.Sample;
    var s0 := Receive.TakeBit(line, s);
    if |got| < BUFSIZE {
      HeardByteIsFrame(line, Receive.DropStuffed(line, s0), got, [Receive.NextBit(line, s)]);
    }
  }

  lemma {:induction false} HeardByteIsFrame(line: seq<Receive.Symbol>, s: Receive.Rx, got: seq<byte>,
                                            partial: seq<bool>)
    requires |got| < BUFSIZE && |partial| <= 8
    ensures ValidFrame(Receive.ListenByte(line, s, got, partial))
    decreases BUFSIZE - |got|, 8 - |partial|
  {
    hide Receive.TakeBit, Receive.DropStuffed, Receive.NextBit, Receive.Sample, ByteOf;
    if |partial| == 8 {
      HeardIsFrame(line, s, got + [ByteOf(partial)]);
    } else {
      HeardByteIsFrame(line, Receive.DropStuffed(line, Receive.TakeBit(line, s)), got,
                       partial + [Receive.NextBit(line, s)]);
    }
  }

  /** The state that the run so far leads to. */
  ghost predicate Reached(s: State, version: seq<byte>, events: seq<Event>) {
    ValidRun(version, events) && s == Run(version, events)
  }

  lemma ReachedInvariant(s: State, version: seq<byte>, events: seq<Event>)
    requires Reached(s, version, events)
    ensures Invariant(s) && InRange(s)
  {
  }

  lemma ReachedNext(s: State, version: seq<byte>, events: seq<Event>, e: Event)
    requires Reached(s, version, events) && ValidEvent(e)
    ensures Invariant(s) && Reached(Next(s, e), version, events + [e])
  {
    assert (events + [e])[..|events|] == events;
  }

  class Driver {
    const rxBuf: array<byte>         // usbRxBuf
    const txBuf: array<byte>         // usbTxBuf
    const version: seq<byte>         // Version
    var inputBufOffset: nat          // usbInputBufOffset
    var rxLen: byte                  // usbRxLen
    var currentTok: byte             // usbCurrentTok
    var rxToken: byte                // usbRxToken
    var txLen: byte                  // usbTxLen
    var deviceAddr: byte             // usbDeviceAddr
    var newDeviceAddr: byte          // usbNewDeviceAddr
    var configuration: byte          // usbConfiguration
    var ioByte: byte                 // IoByte
    var msgPtr: MsgPtr               // usbMsgPtr
    var msgLen: byte                 // usbMsgLen
    var msgPtrIsRom: bool            // USB_FLG_MSGPTR_IS_ROM in usbMsgFlags
    var useUserRw: bool              // USB_FLG_USE_USER_RW in usbMsgFlags
    ghost var pc: Pc
    ghost var history: History
    ghost var events: seq<Event>     // main-loop statements and packets since start-up

    ghost function Abs(): State
      reads this, rxBuf, txBuf
    {
      State(rxBuf[..], inputBufOffset, rxLen, currentTok, rxToken, txLen, txBuf[..], deviceAddr, newDeviceAddr,
            configuration, ioByte, version, msgPtr, msgLen, msgPtrIsRom, useUserRw, pc, history)
    }

    ghost predicate Valid()
      reads this, rxBuf, txBuf
    {
      rxBuf != txBuf && Reached(Abs(), version, events)
    }

    constructor (version: seq<byte>)
      requires |version| == 8
      ensures Valid() && events == [] && Abs() == Init(version)
    {
      this.version := version;
      rxBuf := new byte[2 * BUFSIZE](_ => 0);
      txBuf := new byte[BUFSIZE](_ => 0);
      inputBufOffset, rxLen, currentTok, rxToken, txLen := 0, 0, 0, 0, PID_NAK;
      deviceAddr, newDeviceAddr, configuration, ioByte := 0, 0, 0, 0;
      msgPtr, msgLen, msgPtrIsRom, useUserRw := MsgPtr(Ram([]), 0), NO_MSG, false, false;
      pc, history, events := Idle, History([], false, [], [], 0, 0, false, 0), [];
      new;
      assert rxBuf[..] == Fill(2 * BUFSIZE, 0) && txBuf[..] == Fill(BUFSIZE, 0);
    }

    // ---- The packet interrupt ----

    /** usbSendAndReti: sends `cnt - 1` bytes of data memory after a sync byte, then takes over the new address
        unless the pointer has come to the end of a handshake in register r20. */
    method SendAndReti(mem: seq<byte>, y0: nat, cnt: byte) returns (out: seq<bool>)
      requires 0 < cnt <= 12 && y0 + cnt <= |mem|
      modifies `deviceAddr
      ensures out == Encode(Transmit.Message(mem, y0, cnt), 0, IDLE)
      ensures deviceAddr == if y0 + cnt == 20 + 2 then old(deviceAddr) else ShiftLeft(newDeviceAddr)
    {
      var y;
      out, y := Transmit.UsbSend12(mem, y0, cnt, false);
      if y != 20 + 2 {
        deviceAddr := ShiftLeft(newDeviceAddr);
      }
    }

    /** sendCntAndReti and its two companions: the byte is in register r20. */
    method SendHandshakeAndReti(pid: byte) returns (out: seq<bool>)
      modifies `deviceAddr
      ensures deviceAddr == old(deviceAddr) && out == Levels(Handshake(pid))
    {
      var registers: seq<byte> := Fill(20, 0) + [pid] + Fill(11, 0);
      out := SendAndReti(registers, 20, 2);
      assert registers[20..20 + 2 - 1] == [pid];
    }

    /** usbSendAndReti with the transmit buffer; the last byte that it loads, behind the packet, is not sent. */
    method SendTxBufAndReti(cnt: byte) returns (out: seq<bool>)
      requires txBuf.Length == BUFSIZE && 4 <= cnt <= 12
      modifies `deviceAddr, `history
      ensures Abs() == SendTxBuf(old(Abs()), cnt).s && out == Levels(SendTxBuf(old(Abs()), cnt).answer)
    {
      hide Encode;
      var mem: seq<byte> := Fill(TX_BUF_ADDRESS, 0) + txBuf[..] + [0];
      out := SendAndReti(mem, TX_BUF_ADDRESS, cnt);
      assert mem[TX_BUF_ADDRESS..TX_BUF_ADDRESS + cnt - 1] == txBuf[..][..cnt - 1];
      history := history.(sent := history.sent + [txBuf[..][..cnt - 1]]);
    }

    method HandleIn() returns (out: seq<bool>)
      requires Ready(Abs())
      modifies `txLen, `deviceAddr, `history
      ensures Abs() == UsbInterrupt.HandleIn(old(Abs())).s && out == Levels(UsbInterrupt.HandleIn(old(Abs())).answer)
    {
      hide Encode, Received, SendTxBuf, Levels, ShiftLeft;
      if rxLen >= 1 {
        out := SendHandshakeAndReti(PID_NAK);
        return;
      }
      var cnt := txLen;
      if IsHandshake(cnt) {
        out := SendHandshakeAndReti(cnt);
        return;
      }
      txLen := PID_NAK;
      out := SendTxBufAndReti(cnt);
    }

    /** The buffers are swapped. */
    method TakePacket(cnt: byte)
      requires Ready(Abs()) && 4 <= cnt <= BUFSIZE
      modifies `rxLen, `rxToken, `inputBufOffset, `history
      ensures Abs() == Accept(old(Abs()), cnt)
    {
      ghost var packet := rxBuf[..][inputBufOffset..inputBufOffset + cnt];
      history := history.(accepted := packet);
      if currentTok == PID_SETUP && cnt == BUFSIZE {
        history := history.(setup := packet[1..9], pending := true, sent := [], oldAddr := deviceAddr,
                            oldNew := newDeviceAddr, wasReset := false);
      }
      rxLen := cnt;
      rxToken := currentTok;
      inputBufOffset := BUFSIZE - inputBufOffset;
    }

    method HandleData(cnt: byte) returns (out: seq<bool>)
      requires Ready(Abs()) && cnt <= BUFSIZE
      modifies `rxLen, `rxToken, `inputBufOffset, `deviceAddr, `history
      ensures Abs() == UsbInterrupt.HandleData(old(Abs()), cnt).s
      ensures out == Levels(UsbInterrupt.HandleData(old(Abs()), cnt).answer)
    {
      hide Encode, Received, Sendable, Accept;
      out := [];
      if currentTok == 0 {
      } else if rxLen != 0 {
        out := SendHandshakeAndReti(PID_NAK);
      } else if cnt < 4 {
        out := SendHandshakeAndReti(PID_ACK);
      } else {
        TakePacket(cnt);
        out := SendHandshakeAndReti(PID_ACK);
      }
    }

    /** `se0`: the packet has been stored. */
    method Se0(y: nat, cnt: byte) returns (out: seq<bool>)
      requires Ready(Abs()) && y == inputBufOffset && cnt <= BUFSIZE
      modifies `currentTok, `rxLen, `rxToken, `inputBufOffset, `txLen, `deviceAddr, `history
      ensures Abs() == UsbInterrupt.Se0(old(Abs()), cnt).s
      ensures out == Levels(UsbInterrupt.Se0(old(Abs()), cnt).answer)
    {
      hide UsbInterrupt.HandleData, UsbInterrupt.HandleIn, Received, Sendable, Encode;
      out := [];
      var token := rxBuf[y];
      if token == PID_DATA0 || token == PID_DATA1 {
        out := HandleData(cnt);
      } else if ShiftLeft(rxBuf[y + 1]) != deviceAddr {
        currentTok := 0;
      } else if token == PID_IN {
        out := HandleIn();
      } else if token == PID_SETUP || token == PID_OUT {
        currentTok := token;
      } else {
        currentTok := 0;
      }
    }

    /** From the first bit after the sync pattern to the end of the answer. */
    method PacketInterrupt(line: seq<Receive.Symbol>) returns (out: seq<bool>)
      requires Valid()
      modifies `currentTok, `rxLen, `rxToken, `inputBufOffset, `txLen, `deviceAddr, `history, `events, rxBuf
      ensures Valid()
      ensures events == old(events) + [Irq(FrameOf(line))]
      ensures Abs() == Interrupt(old(Abs()), FrameOf(line)).s
      ensures out == Levels(Interrupt(old(Abs()), FrameOf(line)).answer)
    {
      ghost var s := Abs();
      ghost var f := FrameOf(line);
      ReachedInvariant(s, version, events);
      ReachedNext(s, version, events, Irq(f));
      hide Reached, Addressed, Handover, SetupPrepared, Conserves;
      var accepted, cnt, y := Receive.UsbReceive12(line, rxBuf, inputBufOffset);
      assert Abs() == Store(s, f.bytes);
      out := [];
      if accepted {
        out := Se0(y, cnt);
      } else {
        currentTok := 0;
      }
      events := events + [Irq(f)];
    }

    // ---- The main loop ----

    /** Any number of packets arrive between two statements. */
    method Arrivals()
      requires Valid()
      modifies `currentTok, `rxLen, `rxToken, `inputBufOffset, `txLen, `deviceAddr, `history, `events, rxBuf
      ensures Valid() && old(events) <= events
    {
      var n: nat := *;
      while n > 0
        invariant Valid() && old(events) <= events
      {
        var line: seq<Receive.Symbol> := *;
        var out := PacketInterrupt(line);
        n := n - 1;
      }
    }

    /** The state and the run have made one step of the main loop. */
    twostate predicate Stepped(env: Env)
      reads this, rxBuf, txBuf
    {
      InRange(old(Abs())) && Abs() == MainStep(old(Abs()), env) && events == old(events) + [Main(env)]
    }

    /** One statement of the main loop has been executed. */
    ghost method Record(before: State, env: Env)
      requires rxBuf != txBuf && Reached(before, version, events) && InRange(before)
      requires Abs() == MainStep(before, env)
      modifies `events
      ensures Valid() && events == old(events) + [Main(env)] && Abs() == old(Abs())
    {
      ReachedNext(before, version, events, Main(env));
      hide Reached, MainStep, InRange;
      events := events + [Main(env)];
    }

    // ---- usbPoll ----

    /** `len = usbRxLen - 3` */
    method ReadRxLen() returns (len: int)
      requires Valid() && pc == Idle
      modifies `pc, `events
      ensures Valid() && old(events) < events && Stepped(QUIET)
      ensures len == rxLen as int - 3 && pc == if len >= 0 then RxArgs(len) else TxTest
    {
      hide Reached, Invariant, Buffers, ProcessStep, BuildStep, PcInRange;
      ReachedInvariant(Abs(), version, events);
      ghost var before := Abs();
      len := rxLen as int - 3;
      pc := if len >= 0 then RxArgs(len) else TxTest;
      Record(before, QUIET);
    }

    /** The half of the receive buffer that the interrupt does not write now. */
    method ReadOffset(len: nat) returns (data: nat)
      requires Valid() && pc == RxArgs(len)
      modifies `pc, `events
      ensures Valid() && old(events) < events && Stepped(QUIET)
      ensures data == BUFSIZE + 1 - inputBufOffset && pc == Process(Token(data, len))
    {
      hide Reached, Invariant;
      ReachedInvariant(Abs(), version, events);
      ghost var before := Abs();
      data := BUFSIZE + 1 - inputBufOffset;
      pc := Process(Token(data, len));
      Record(before, QUIET);
    }

    /** `usbRxLen = 0` */
    method ReleaseRxBuf()
      requires Valid() && pc == RxDone
      modifies `rxLen, `pc, `events
      ensures Valid() && old(events) < events && Stepped(QUIET)
      ensures rxLen == 0 && pc == TxTest
    {
      hide Reached, Invariant, Buffers;
      ReachedInvariant(Abs(), version, events);
      ghost var before := Abs();
      rxLen := 0;
      pc := TxTest;
      Record(before, QUIET);
    }

    /** `if(usbTxLen & 0x10) if(usbMsgLen != USB_NO_MSG)` */
    method TransmitIdle() returns (build: bool)
      requires Valid() && pc == TxTest
      modifies `pc, `events
      ensures Valid() && old(events) < events && Stepped(QUIET)
      ensures build == (IsHandshake(txLen) && msgLen != NO_MSG)
      ensures pc == if build then Build(BuildPc.Toggling) else ResetTest
    {
      hide Reached, Invariant, Buffers;
      ReachedInvariant(Abs(), version, events);
      ghost var before := Abs();
      build := IsHandshake(txLen) && msgLen != NO_MSG;
      pc := if build then Build(BuildPc.Toggling) else ResetTest;
      Record(before, QUIET);
    }

    /** A reset is seen when twenty samples in a row show both data lines low. */
    method SampleReset() returns (reset: bool, ghost samples: seq<byte>)
      requires Valid() && pc == ResetTest
      modifies `pc, `events
      ensures Valid() && old(events) < events && Stepped(Env(reset, 0)) && pc == if reset then ResetNew else Idle
      ensures reset <==> |samples| == 20 && forall k :: 0 <= k < 20 ==> samples[k] == 0
    {
      hide Reached, Invariant, Buffers;
      ReachedInvariant(Abs(), version, events);
      ghost var before := Abs();
      reset := true;
      samples := [];
      var i := 20;
      while i > 0 && reset
        invariant 0 <= i <= 20 && |samples| == 20 - i
        invariant reset <==> forall k :: 0 <= k < |samples| ==> samples[k] == 0
      {
        var usbLineStatus: byte := *;
        samples := samples + [usbLineStatus];
        assert samples[|samples| - 1] == usbLineStatus;
        reset := usbLineStatus == 0;
        i := i - 1;
      }
      pc := if reset then ResetNew else Idle;
      Record(before, Env(reset, 0));
    }

    method ResetNewAddr()
      requires Valid() && pc == ResetNew
      modifies `newDeviceAddr, `pc, `history, `events
      ensures Valid() && old(events) < events && Stepped(QUIET) && newDeviceAddr == 0 && pc == ResetAddr
    {
      hide Reached, Invariant, Buffers;
      ReachedInvariant(Abs(), version, events);
      ghost var before := Abs();
      newDeviceAddr := 0;
      pc, history := ResetAddr, history.(wasReset := true);
      Record(before, QUIET);
    }

    method ResetDeviceAddr()
      requires Valid() && pc == ResetAddr
      modifies `deviceAddr, `pc, `history, `events
      ensures Valid() && old(events) < events && Stepped(QUIET) && deviceAddr == 0 && pc == Idle
    {
      hide Reached, Invariant, Buffers;
      ReachedInvariant(Abs(), version, events);
      ghost var before := Abs();
      deviceAddr := 0;
      pc, history := Idle, history.(wasReset := true);
      Record(before, QUIET);
    }

    /** The last part of usbPoll. */
    method CheckReset()
      requires Valid() && pc == ResetTest
      modifies this, rxBuf
      ensures Valid() && pc == Idle && old(events) < events
    {
      hide Valid, Stepped;
      var reset, samples := SampleReset();
      if reset {
        Arrivals();
        ResetNewAddr();
        Arrivals();
        ResetDeviceAddr();
      }
    }

    /** The first part of usbPoll: a packet that has been received. */
    method HandleReceived()
      requires Valid() && pc == Idle
      modifies this, rxBuf, txBuf
      ensures Valid() && pc == TxTest && old(events) < events
    {
      hide Valid, Stepped;
      var len := ReadRxLen();
      if len >= 0 {
        Arrivals();
        var data := ReadOffset(len);
        Arrivals();
        UsbProcessRx(data, len);
        Arrivals();
        ReleaseRxBuf();
      }
    }

    /** The second part: a packet to be sent. */
    method BuildIfIdle()
      requires Valid() && pc == TxTest
      modifies this, rxBuf, txBuf
      ensures Valid() && pc == ResetTest && old(events) < events
    {
      hide Valid, Stepped;
      var build := TransmitIdle();
      if build {
        Arrivals();
        UsbBuildTxBlock();
      }
    }

    /** Every execution of usbPoll, with packets arriving between any two statements, is a run. */
    method UsbPoll()
      requires Valid() && pc == Idle
      modifies this, rxBuf, txBuf
      ensures Valid() && pc == Idle && old(events) < events
    {
      hide Valid, Stepped;
      HandleReceived();
      Arrivals();
      BuildIfIdle();
      Arrivals();
      CheckReset();
      Arrivals();
    }

    // ---- usbProcessRx ----

    method TestToken(data: nat, len: nat) returns (isSetup: bool)
      requires Valid() && pc == Process(Token(data, len))
      modifies `pc, `events
      ensures Valid() && old(events) < events && Stepped(QUIET) && isSetup == (rxToken == PID_SETUP)
      ensures pc == if !isSetup then Process(OutData)
                    else if len != 8 then RxDone
                    else Process(Setup(data, SetupPc.Toggling))
    {
      hide Reached, Invariant, Buffers, SetupStep;
      ReachedInvariant(Abs(), version, events);
      ghost var before := Abs();
      isSetup := rxToken == PID_SETUP;
      pc := if !isSetup then Process(OutData) else if len != 8 then RxDone else Process(Setup(data, SetupPc.Toggling));
      Record(before, QUIET);
    }

    /** Data of a control-out transfer. usbFunctionWrite has nothing to take and reports the end of the transfer. */
    method HandleOutData()
      requires Valid() && pc == Process(OutData)
      modifies `msgLen, `pc, `history, `events
      ensures Valid() && old(events) < events && Stepped(QUIET) && pc == RxDone
    {
      hide Reached, Invariant, Buffers, SetupStep;
      ReachedInvariant(Abs(), version, events);
      ghost var before := Abs();
      if useUserRw {
        history := history.(userCalls := history.userCalls + 1);
        msgLen := 0;
      }
      pc := RxDone;
      Record(before, QUIET);
    }

    /** `usbTxBuf[0] = USBPID_DATA0` */
    method InitToggling(data: nat)
      requires Valid() && pc == Process(Setup(data, SetupPc.Toggling))
      modifies txBuf, `pc, `events
      ensures Valid() && old(events) < events && Stepped(QUIET)
      ensures pc == Process(Setup(data, Abort)) && txBuf.Length == BUFSIZE && txBuf[0] == PID_DATA0
    {
      hide Reached, Invariant;
      ReachedInvariant(Abs(), version, events);
      ghost var before := Abs();
      txBuf[0] := PID_DATA0;
      pc := Process(Setup(data, Abort));
      Record(before, QUIET);
    }

    /** `usbTxLen = USBPID_NAK` */
    method AbortTransmit(data: nat)
      requires Valid() && pc == Process(Setup(data, Abort))
      modifies `txLen, `pc, `events
      ensures Valid() && old(events) < events && Stepped(QUIET)
      ensures pc == Process(Setup(data, Flags)) && txLen == PID_NAK
    {
      hide Reached, Invariant, Buffers;
      ReachedInvariant(Abs(), version, events);
      ghost var before := Abs();
      txLen := PID_NAK;
      pc := Process(Setup(data, Flags));
      Record(before, QUIET);
    }

    method ClearFlags(data: nat) returns (standard: bool)
      requires Valid() && pc == Process(Setup(data, Flags))
      modifies `msgPtrIsRom, `useUserRw, `pc, `events
      ensures Valid() && old(events) < events && Stepped(QUIET) && !msgPtrIsRom && !useUserRw
      ensures pc == Process(Setup(data, if standard then DriverClear else SetupPc.Function))
    {
      hide Reached, Invariant;
      ReachedInvariant(Abs(), version, events);
      ghost var before := Abs();
      msgPtrIsRom, useUserRw := false, false;
      standard := rxBuf[data] / 32 % 4 == 0;
      pc := Process(Setup(data, if standard then DriverClear else SetupPc.Function));
      Record(before, QUIET);
    }

    /** `dataPtr[0] = 0` */
    method ClearReply(data: nat)
      requires Valid() && pc == Process(Setup(data, DriverClear))
      modifies txBuf, `pc, `events
      ensures Valid() && old(events) < events && Stepped(QUIET)
      ensures pc == Process(Setup(data, DriverSwitch)) && txBuf.Length == BUFSIZE && txBuf[9] == 0
    {
      hide Reached, Invariant;
      ReachedInvariant(Abs(), version, events);
      ghost var before := Abs();
      txBuf[9] := 0;
      pc := Process(Setup(data, DriverSwitch));
      Record(before, QUIET);
    }

    /** usbDriverDescriptor: a descriptor in flash, or nothing. */
    method UsbDriverDescriptor(low: byte, high: byte) returns (len: byte)
      modifies `msgPtr, `msgPtrIsRom
      ensures Abs() == DriverDescriptor(old(Abs()), low, high).s && len == DriverDescriptor(old(Abs()), low, high).len
    {
      hide DescriptorFor;
      var found := DescriptorFor(low, high);
      len := |found|;
      if found != [] {
        msgPtr := MsgPtr(Rom(found), 0);
      }
      msgPtrIsRom := true;
    }

    /** The switch of usbDriverSetup. */
    method UsbDriverSetup(data: nat) returns (len: byte)
      requires rxBuf != txBuf && data + 8 <= rxBuf.Length && txBuf.Length == BUFSIZE
      modifies txBuf, `newDeviceAddr, `configuration, `msgPtr, `msgPtrIsRom
      ensures var h := DriverSetup(old(Abs()), old(rxBuf[data..data + 8])); Abs() == h.s && len == h.len
    {
      hide DriverDescriptor;
      var dataPtr := MsgPtr(TxBuffer, 9);
      var value := rxBuf[data + 2];
      len := 0;
      match rxBuf[data + 1] {
        case 0 => txBuf[10] := 0; len := 2;
        case 5 => newDeviceAddr := value;
        case 6 => len := UsbDriverDescriptor(value, rxBuf[data + 3]); dataPtr := msgPtr;
        case 8 => dataPtr := MsgPtr(Configuration, 0); len := 1;
        case 9 => configuration := value;
        case 10 => len := 1;
        case _ =>
      }
      msgPtr := dataPtr;
    }

    /** usbFunctionSetup of main.c. The mode of SET_MODE is limited where the request lies; `lpt` is what the
        printer-port register holds. */
    method UsbFunctionSetup(data: nat, lpt: byte) returns (len: byte)
      requires rxBuf != txBuf && data + 8 <= rxBuf.Length
      modifies rxBuf, `ioByte, `msgPtr
      ensures var h := FunctionSetupOf(old(Abs()), data, old(rxBuf[data..data + 8]), lpt); Abs() == h.s && len == h.len
    {
      var wValue := WordOf(rxBuf[data + 2], rxBuf[data + 3]);
      len := 0;
      if rxBuf[data] % 128 != 0x40 {
        return;
      }
      match rxBuf[data + 1] {
        case 126 =>
          if WordOf(rxBuf[data + 4], rxBuf[data + 5]) == 4 {
            msgPtr := MsgPtr(Ram(MS_DESCRIPTOR), 0);
            len := 40;
          }
        case 7 => msgPtr := MsgPtr(Ram(version), 0); len := 8;
        case 8 => if wValue > 2 { rxBuf[data + 2], rxBuf[data + 3] := 2, 0; }
        case 10 =>
          ioByte := if wValue <= 4 then lpt else 0;
          msgPtr := MsgPtr(IoByte, 0);
          len := 1;
        case _ =>
      }
    }

    method CallDriverSetup(data: nat) returns (len: byte)
      requires Valid() && pc == Process(Setup(data, DriverSwitch))
      modifies txBuf, `newDeviceAddr, `configuration, `msgPtr, `msgPtrIsRom, `pc, `events
      ensures Valid() && old(events) < events && Stepped(QUIET) && pc == Process(Setup(data, SetupPc.Limit(len)))
    {
      hide Reached, Invariant, DriverSetup;
      ReachedInvariant(Abs(), version, events);
      ghost var before := Abs();
      assert rxBuf[..][data..data + 8] == rxBuf[data..data + 8];
      len := UsbDriverSetup(data);
      pc := Process(Setup(data, SetupPc.Limit(len)));
      Record(before, QUIET);
    }

    method CallFunctionSetup(data: nat, lpt: byte) returns (len: byte)
      requires Valid() && pc == Process(Setup(data, SetupPc.Function))
      modifies rxBuf, `ioByte, `msgPtr, `pc, `events
      ensures Valid() && old(events) < events && Stepped(Env(false, lpt))
      ensures pc == Process(Setup(data, SetupPc.Limit(len)))
    {
      hide Reached, Invariant, FunctionSetupOf;
      ReachedInvariant(Abs(), version, events);
      ghost var before := Abs();
      assert rxBuf[..][data..data + 8] == rxBuf[data..data + 8];
      len := UsbFunctionSetup(data, lpt);
      pc := Process(Setup(data, SetupPc.Limit(len)));
      Record(before, Env(false, lpt));
    }

    /** `replyLen`, limited to wLength; a user-supplied transfer takes the length of the request when it is IN. */
    method LimitReplyLen(data: nat, replyLen: byte)
      requires data + 8 <= rxBuf.Length
      modifies `msgLen, `useUserRw
      ensures Abs() == LimitReply(old(Abs()), old(rxBuf[data..data + 8]), replyLen)
    {
      ghost var rq := rxBuf[data..data + 8];
      assert rq[0] == rxBuf[data] && rq[6] == rxBuf[data + 6] && rq[7] == rxBuf[data + 7];
      msgLen := replyLen;
      if replyLen == NO_MSG {
        if rxBuf[data] >= 0x80 {
          msgLen := rxBuf[data + 6];
        }
        useUserRw := true;
      } else if rxBuf[data + 7] == 0 && replyLen > rxBuf[data + 6] {
        msgLen := rxBuf[data + 6];
      }
    }

    /** `usbMsgLen = replyLen` */
    method SetMsgLen(data: nat, replyLen: byte)
      requires Valid() && pc == Process(Setup(data, SetupPc.Limit(replyLen)))
      modifies `msgLen, `useUserRw, `pc, `history, `events
      ensures Valid() && old(events) < events && Stepped(QUIET) && pc == RxDone
    {
      hide Reached, Invariant, LimitReply;
      ReachedInvariant(Abs(), version, events);
      ghost var before := Abs();
      assert rxBuf[..][data..data + 8] == rxBuf[data..data + 8];
      LimitReplyLen(data, replyLen);
      pc, history := RxDone, history.(pending := false);
      Record(before, QUIET);
    }

    /** From `usbMsgFlags = 0` on. */
    method HandleRequest(data: nat)
      requires Valid() && pc == Process(Setup(data, Flags))
      modifies this, rxBuf, txBuf
      ensures Valid() && pc == RxDone && old(events) < events
    {
      hide Valid, Stepped;
      var standard := ClearFlags(data);
      Arrivals();
      var replyLen;
      if standard {
        ClearReply(data);
        Arrivals();
        replyLen := CallDriverSetup(data);
      } else {
        var lpt: byte := *;
        replyLen := CallFunctionSetup(data, lpt);
      }
      Arrivals();
      SetMsgLen(data, replyLen);
    }

    method UsbProcessRx(data: nat, len: nat)
      requires Valid() && pc == Process(Token(data, len))
      modifies this, rxBuf, txBuf
      ensures Valid() && pc == RxDone && old(events) < events
    {
      hide Valid, Stepped;
      var isSetup := TestToken(data, len);
      if isSetup {
        if len != 8 {
          return;
        }
        Arrivals();
        InitToggling(data);
        Arrivals();
        AbortTransmit(data);
        Arrivals();
        HandleRequest(data);
      } else {
        Arrivals();
        HandleOutData();
      }
    }

    // ---- usbBuildTxBlock ----

    /** Take at most eight bytes and toggle the PID. */
    method TakeBytes() returns (wantLen: byte)
      requires InRange(Abs())
      modifies `msgLen, `pc, `history, txBuf
      ensures Abs() == BuildStep(old(Abs()), BuildPc.Toggling) && wantLen <= 8
      ensures if wantLen > 0 && !useUserRw then pc == Build(Copy(wantLen, 0)) else pc == Build(AppendLow(0))
    {
      hide Toggle, PcInRange;
      wantLen := if msgLen > 8 then 8 else msgLen;
      msgLen := msgLen - wantLen;
      txBuf[0] := Toggle(txBuf[0]);
      if wantLen > 0 && useUserRw {
        history := history.(userCalls := history.userCalls + 1);
      }
      pc := Build(if wantLen > 0 && !useUserRw then Copy(wantLen, 0) else AppendLow(0));
    }

    method ToggleAndTake() returns (wantLen: byte)
      requires Valid() && pc == Build(BuildPc.Toggling)
      modifies `msgLen, `pc, `history, `events, txBuf
      ensures Valid() && old(events) < events && Stepped(QUIET) && wantLen <= 8
      ensures if wantLen > 0 && !useUserRw then pc == Build(Copy(wantLen, 0)) else pc == Build(AppendLow(0))
    {
      hide Reached, Invariant, BuildStep;
      ReachedInvariant(Abs(), version, events);
      ghost var before := Abs();
      wantLen := TakeBytes();
      Record(before, QUIET);
    }

    /** `*data++ = *r++`, and after the last byte `usbMsgPtr = r`. */
    method CopyByte(wantLen: nat, i: nat)
      requires Valid() && pc == Build(Copy(wantLen, i))
      modifies `msgPtr, `pc, `events, txBuf
      ensures Valid() && old(events) < events && Stepped(QUIET) && i < wantLen <= 8
      ensures txBuf.Length == BUFSIZE && txBuf[1 + i] == old(Load(i))
      ensures pc == if i + 1 < wantLen then Build(Copy(wantLen, i + 1)) else Build(AppendLow(wantLen))
    {
      hide Reached, Invariant, ReadByte;
      ReachedInvariant(Abs(), version, events);
      ghost var before := Abs();
      txBuf[1 + i] := Load(i);
      if i + 1 < wantLen {
        pc := Build(Copy(wantLen, i + 1));
      } else {
        msgPtr := MsgPtr(msgPtr.region, msgPtr.off + wantLen);
        pc := Build(AppendLow(wantLen));
      }
      Record(before, QUIET);
    }

    /** Memory at `r[i]`, in flash or in RAM. */
    function Load(i: nat): (b: byte)
      reads this, rxBuf, txBuf
      ensures b == ReadByte(Abs(), i)
    {
      var at := msgPtr.off + i;
      match msgPtr.region
      case Rom(bytes) => if msgPtrIsRom && at < |bytes| then bytes[at] else 0
      case Ram(bytes) => if !msgPtrIsRom && at < |bytes| then bytes[at] else 0
      case TxBuffer => if !msgPtrIsRom && at < txBuf.Length then txBuf[at] else 0
      case Configuration => if !msgPtrIsRom && at == 0 then configuration else 0
      case IoByte => if !msgPtrIsRom && at == 0 then ioByte else 0
    }

    /** The first store of usbCrc16Append. */
    method AppendCrcLow(len: nat) returns (crcHigh: byte)
      requires Valid() && pc == Build(AppendLow(len))
      modifies `pc, `events, txBuf
      ensures Valid() && old(events) < events && Stepped(QUIET) && pc == Build(AppendHigh(len, crcHigh))
    {
      hide Reached, Invariant, Crc, ByteOf;
      ReachedInvariant(Abs(), version, events);
      ghost var before := Abs();
      var l, h := Crc16Asm.UsbCrc16Slow(txBuf[1..1 + len]);
      assert txBuf[..][1..1 + len] == txBuf[1..1 + len];
      txBuf[1 + len] := ByteOf(l);
      crcHigh := ByteOf(h);
      pc := Build(AppendHigh(len, crcHigh));
      Record(before, QUIET);
    }

    method AppendCrcHigh(len: nat, crcHigh: byte)
      requires Valid() && pc == Build(AppendHigh(len, crcHigh))
      modifies `pc, `events, txBuf
      ensures Valid() && old(events) < events && Stepped(QUIET)
      ensures len <= 8 && pc == Build(Publish(len + 4)) && txBuf.Length == BUFSIZE && txBuf[2 + len] == crcHigh
    {
      hide Reached, Invariant;
      ReachedInvariant(Abs(), version, events);
      ghost var before := Abs();
      txBuf[2 + len] := crcHigh;
      pc := Build(Publish(len + 4));
      Record(before, QUIET);
    }

    /** A packet that is not full ends the message; the length is written last. */
    method PublishPacket(len: byte)
      requires Valid() && pc == Build(Publish(len))
      modifies `msgLen, `txLen, `pc, `events
      ensures Valid() && old(events) < events && Stepped(QUIET) && pc == ResetTest
      ensures txLen == len && msgLen == (if len < 12 then NO_MSG else old(msgLen)) && !IsHandshake(len)
    {
      hide Reached, Invariant, Buffers, ProcessStep;
      ReachedInvariant(Abs(), version, events);
      ghost var before := Abs();
      if len < 12 {
        msgLen := NO_MSG;
      }
      txLen := len;
      pc := ResetTest;
      Record(before, QUIET);
    }

    method UsbBuildTxBlock()
      requires Valid() && pc == Build(BuildPc.Toggling)
      modifies this, rxBuf, txBuf
      ensures Valid() && pc == ResetTest && old(events) < events && !IsHandshake(txLen)
    {
      hide Valid, Stepped;
      var len := ToggleAndTake();
      if len > 0 && !useUserRw {
        // the do-while loop of usbDeviceRead
        var i := 0;
        while i < len
          invariant Valid() && old(events) < events && i <= len
          invariant pc == if i < len then Build(Copy(len, i)) else Build(AppendLow(len))
        {
          Arrivals();
          CopyByte(len, i);
          i := i + 1;
        }
      } else {
        len := 0;
      }
      Arrivals();
      var crcHigh := AppendCrcLow(len);
      Arrivals();
      AppendCrcHigh(len, crcHigh);
      Arrivals();
      PublishPacket(len + 4);
    }
  }

  const QUIET := Env(false, 0)
}
