/** What holds in every run, wherever the interrupts strike. */
module UsbTheorems {
  import opened Bits
  import opened Crc16
  import opened UsbState
  import Receive
  import opened UsbMain
  import opened UsbInterrupt
  import opened UsbReply
  import opened UsbInvariant
  import opened UsbDelivery
  import opened UsbInterleaving
  import opened UsbRuns

  // ---- Freshness and exact delivery ----

  /** The packets sent since the last accepted SETUP are the first of those owed for it, in order; while the main
      loop has not finished with the SETUP there are none. */
  lemma SentIsOwed(version: seq<byte>, events: seq<Event>)
    requires ValidRun(version, events)
    ensures var s := Run(version, events);
            && (s.history.setup == [] || |s.history.setup| == 8)
            && s.history.sent <= Owed(s)
            && (s.history.pending ==> s.history.sent == [])
  {
    var s := Run(version, events);
    hide Run, Queue, Readable, Sizes, SetupPrepared, Owed;
  }

  /** Any data packet that an interrupt sends is the next one owed for the last accepted SETUP. When all have been
      sent there is none. */
  lemma DataIsNextOwed(version: seq<byte>, events: seq<Event>, f: Frame)
    requires ValidRun(version, events) && ValidFrame(f)
    ensures var s := Run(version, events); var r := Interrupt(s, f);
            r.answer.Data? ==>
              && !s.history.pending && |s.history.setup| == 8
              && |s.history.sent| < |Owed(s)| && r.answer.packet == Owed(s)[|s.history.sent|]
              && r.s.history == s.history.(sent := s.history.sent + [r.answer.packet])
  {
    var s := Run(version, events);
    InterruptCases(s, f);
    var u, r := Store(s, f.bytes), Interrupt(s, f);
    if r.answer.Data? {
      InterruptKeeps(s, f);
      DataFollowsQueue(s, u, r);
    }
  }

  lemma DataFollowsQueue(s: State, u: State, r: Result)
    requires Good(s) && Quiet(s, u) && s.rxLen == 0 && !IsHandshake(s.txLen)
    requires r == SendTxBuf(u.(txLen := PID_NAK), s.txLen)
    ensures !s.history.pending && |s.history.setup| == 8
    ensures |s.history.sent| < |Owed(s)| && r.answer.packet == Owed(s)[|s.history.sent|]
    ensures r.s.history == s.history.(sent := s.history.sent + [r.answer.packet])
  {
    SendKeepsHandover(s);
    var packet := s.txBuf[..s.txLen - 1];
    assert r.answer == Data(packet);
    assert Owed(s) == s.history.sent + Queue(s);
    hide SendTxBuf, Readable, Reply, Rest;
    assert !s.pc.Build?;
    assert Queue(s) == [packet] + Rest(s, 0, s.txBuf[0]);
  }

  // ---- Buffer ownership ----

  /** No interrupt writes the transmit buffer, and while a packet is taken none touches the half in which it lies,
      the other variables of the hand-over, or the device address: the host gets NAK or nothing. */
  lemma InterruptRespectsMain(version: seq<byte>, events: seq<Event>, f: Frame)
    requires ValidRun(version, events) && ValidFrame(f)
    ensures var s := Run(version, events); var r := Interrupt(s, f);
            && r.s.txBuf == s.txBuf
            && (s.off == 0 || s.off == BUFSIZE)
            && (s.rxLen != 0 ==> !r.answer.Data? && Quiet(s, r.s))
  {
    var s := Run(version, events);
    hide Run, Conserves, SetupPrepared, Handover;
    InterruptCases(s, f);
  }

  /** While a packet lies ready in the transmit buffer the main loop leaves the buffer and its length alone,
      unless a taken SETUP keeps the interrupt from sending it. */
  lemma MainRespectsInterrupt(version: seq<byte>, events: seq<Event>, env: Env)
    requires ValidRun(version, events)
    ensures var s := Run(version, events); var t := MainStep(s, env);
            s.rxLen == 0 && !IsHandshake(s.txLen) ==> t.txBuf == s.txBuf && t.txLen == s.txLen
  {
    var s := Run(version, events);
    hide Run, Conserves, SetupPrepared, Handover;
    if s.rxLen == 0 && !IsHandshake(s.txLen) {
      assert !Processing(s.pc) && !s.pc.Build?;
      PollFrame(s, env);
    }
  }

  /** usbProcessRx sees the accepted packet: eight request bytes exactly as they were received. */
  lemma RequestIsAccepted(version: seq<byte>, events: seq<Event>)
    requires ValidRun(version, events)
    ensures var s := Run(version, events);
            s.pc.Process? && s.pc.at.Setup? && !s.pc.at.rest.Limit? ==>
              && s.history.pending && s.rxTok == PID_SETUP
              && Request(s, s.pc.at.data) == s.history.setup == s.history.accepted[1..9]
  {
    var s := Run(version, events);
    hide Run, Conserves, SetupPrepared;
    if s.pc.Process? && s.pc.at.Setup? && !s.pc.at.rest.Limit? {
      RequestIsSetup(s);
    }
  }

  // ---- The device address ----

  lemma StatusStage(s: State)
    requires IsSetAddress(s.history.setup)
    ensures Owed(s) == [DataPacket(PID_DATA1, [])]
  {
    hide DataPacket;
  }

  /** SET_ADDRESS, USB 2.0 section 9.4.6: without a bus reset the old address holds until the status packet has
      been sent, and from then on the new one; the status packet is one empty DATA1 packet. */
  lemma SetAddressTiming(version: seq<byte>, events: seq<Event>)
    requires ValidRun(version, events)
    ensures var s := Run(version, events); var h := s.history;
            IsSetAddress(h.setup) && !h.wasReset ==>
              && s.devAddr == (if h.sent == [] then h.oldAddr else ShiftLeft(h.setup[2]))
              && Owed(s) == [DataPacket(PID_DATA1, [])]
  {
    var s := Run(version, events);
    hide Run, Good, DataPacket, Owed;
    if IsSetAddress(s.history.setup) {
      StatusStage(s);
    }
  }

  lemma RunIsReady(version: seq<byte>, events: seq<Event>)
    requires ValidRun(version, events)
    ensures var s := Run(version, events); Ready(s) && s.devAddr % 2 == 0
  {
    var s := Run(version, events);
    hide Run, SetupPrepared, Conserves, Handover, IsSetAddress, ShiftLeft;
    GoodFacts(s);
  }

  /** In every run a token for another address is not answered, and neither is a data packet behind it. */
  lemma ForeignTokensAreIgnored(version: seq<byte>, events: seq<Event>, token: seq<byte>, data: seq<byte>)
    requires ValidRun(version, events) && 2 <= |token| <= 11 && 2 <= |data| <= 11
    requires token[0] != 0xc3 && token[0] != 0x4b && token[1] % 128 != Run(version, events).devAddr / 2
    requires data[0] == 0xc3 || data[0] == 0x4b
    ensures var s := Run(version, events); var r := Interrupt(s, Receive.Packet(token));
            && Ignored(s, r) && Ready(r.s) && Ignored(r.s, Interrupt(r.s, Receive.Packet(data)))
  {
    hide Run, Interrupt, Good, Addressed, Received, Sendable;
    var s := Run(version, events);
    RunIsReady(version, events);
    ForeignTokenAnswer(s, token);
    DataPacketAnswer(Interrupt(s, Receive.Packet(token)).s, data);
  }

  /** And the device hears what is for it: a SETUP or OUT token is remembered, and an IN token is answered by NAK while
      a packet is taken, by the handshake on offer, or by the packet on offer, which is then withdrawn. */
  lemma OwnTokensAreHeard(version: seq<byte>, events: seq<Event>, token: seq<byte>)
    requires ValidRun(version, events) && 2 <= |token| <= 11
    requires token[0] != 0xc3 && token[0] != 0x4b && token[1] % 128 == Run(version, events).devAddr / 2
    ensures var s := Run(version, events); var r := Interrupt(s, Receive.Packet(token));
            && (token[0] == 0x2d || token[0] == 0xe1 ==> Quiet(s, r.s) && r.s.curTok == token[0] && r.answer == Silence)
            && (token[0] == 0x69 && s.rxLen != 0 ==> r.answer == Handshake(0x5a))
            && (token[0] == 0x69 && s.rxLen == 0 && s.txLen / 16 % 2 == 1 ==> r.answer == Handshake(s.txLen))
            && (token[0] == 0x69 && s.rxLen == 0 && s.txLen / 16 % 2 == 0 ==> r.answer == Data(s.txBuf[..s.txLen - 1]))
            && (token[0] == 0x69 && r.answer.Data? ==> r.s.txLen == 0x5a)
  {
    hide Run, Interrupt, Quiet, Good, Addressed, Buffers, Received, Sendable;
    RunIsReady(version, events);
    OwnTokenAnswer(Run(version, events), token);
  }

  /** SET_ADDRESS on the bus: without a reset, tokens count if they carry the old address until the status packet has
      been sent, and the new one from then on. */
  lemma SetAddressOnTheBus(version: seq<byte>, events: seq<Event>, token: seq<byte>)
    requires ValidRun(version, events) && 2 <= |token| <= 11 && token[0] in {0x69, 0x2d, 0xe1}
    requires var h := Run(version, events).history; IsSetAddress(h.setup) && !h.wasReset
    ensures var s := Run(version, events); var r := Interrupt(s, Receive.Packet(token));
            var address := if s.history.sent == [] then s.history.oldAddr / 2 else s.history.setup[2] % 128;
            && (token[1] % 128 != address ==> Ignored(s, r))
            && (token[1] % 128 == address ==> if token[0] == 0x69 then r.answer != Silence else r.s.curTok == token[0])
  {
    hide Run, Interrupt, Quiet, Owed, ShiftLeft, IsSetAddress, Good, Addressed, Buffers, Received, Sendable;
    var s := Run(version, events);
    RunIsReady(version, events);
    SetAddressTiming(version, events);
    if s.history.sent != [] { AddressHalf(s.history.setup, s.devAddr); }
    if token[1] % 128 == s.devAddr / 2 {
      OwnTokenAnswer(s, token);
    } else {
      ForeignTokenAnswer(s, token);
    }
  }

  lemma AddressHalf(setup: seq<byte>, devAddr: byte)
    requires IsSetAddress(setup) && devAddr == ShiftLeft(setup[2])
    ensures devAddr / 2 == setup[2] % 128
  {
  }

  /** Any other request, again without a bus reset: the address stays if and only if, when the request was accepted,
      the new address was the one in force, so that no SET_ADDRESS was waiting for its status stage. Otherwise the
      first packet for this request moves the address. */
  lemma OtherRequestsKeepAddress(version: seq<byte>, events: seq<Event>)
    requires ValidRun(version, events)
    ensures var s := Run(version, events); var h := s.history;
            h.setup != [] && !IsSetAddress(h.setup) && !h.wasReset ==>
              (s.devAddr == h.oldAddr <==> h.sent == [] || ShiftLeft(h.oldNew) == h.oldAddr)
  {
    hide Run, Good, IsSetAddress;
  }

  /** The address moves in two places only: at the end of a data packet and in the bus reset, where it becomes zero. No
      handshake, no received packet and no other statement of the main loop moves it. */
  lemma WhatMovesTheAddress(version: seq<byte>, events: seq<Event>, e: Event)
    requires ValidRun(version, events) && ValidEvent(e)
    ensures var s := Run(version, events);
            Next(s, e).devAddr != s.devAddr ==>
              match e
              case Main(env) => s.pc.ResetAddr? && Next(s, e).devAddr == 0
              case Irq(f) => Interrupt(s, f).answer.Data? && Next(s, e).devAddr == ShiftLeft(s.newAddr)
  {
    var s := Run(version, events);
    hide Run, Conserves, SetupPrepared, ShiftLeft;
    match e
    case Irq(f) => InterruptCases(s, f);
    case Main(env) => MainAddress(s, env);
  }

  lemma MainAddress(s: State, env: Env)
    requires Sizes(s)
    ensures MainStep(s, env).devAddr != s.devAddr ==> s.pc.ResetAddr? && MainStep(s, env).devAddr == 0
  {
    hide DriverSetup, FunctionSetupOf, CrcLow, CrcHigh, Toggle, IsHandshake, ReadByte;
  }

  // ---- The EEPROM callbacks ----

  /** USB_FLG_USE_USER_RW is never set and usbFunctionRead and usbFunctionWrite are never called. */
  lemma NoUserReadWrite(version: seq<byte>, events: seq<Event>)
    requires ValidRun(version, events)
    ensures !Run(version, events).flagUser && Run(version, events).history.userCalls == 0
  {
    hide Run;
  }
}
