/** The packet interrupt: from the end of a received packet to the end of the answer, one atomic step. */
module UsbInterrupt {
  import opened Bits
  import opened UsbState
  import Receive

  type Frame = Receive.Outcome

  predicate ValidFrame(f: Frame) {
    |f.bytes| <= BUFSIZE && (f.Overflow? ==> |f.bytes| == BUFSIZE)
  }

  /** What goes out on the line. */
  datatype Answer = Silence | Handshake(pid: byte) | Data(packet: seq<byte>)

  datatype Result = Result(s: State, answer: Answer)

  predicate Ready(s: State) {
    Buffers(s.rxBuf, s.off, s.txBuf, s.version) && Received(s.rxLen) && Sendable(s.txLen)
  }

  /** The bytes lie in the half of the buffer that the offset selects. */
  function Store(s: State, bytes: seq<byte>): State
    requires Ready(s) && |bytes| <= BUFSIZE
  {
    s.(rxBuf := s.rxBuf[..s.off] + bytes + s.rxBuf[s.off + |bytes|..])
  }

  /** `ignorePacket`: the data packet after it will be ignored too. */
  function Ignore(s: State): Result { Result(s.(curTok := 0), Silence) }

  /** The end of usbSendAndReti: the new address is taken over unless the data pointer ends where the single
      byte of a handshake ends, at register r20 plus 2. */
  function AfterSend(s: State, y: nat): State {
    if y == 20 + 2 then s else s.(devAddr := ShiftLeft(s.newAddr))
  }

  /** sendAckAndReti, sendNakAndReti, sendCntAndReti: one byte in register r20. */
  function SendHandshake(s: State, pid: byte): Result {
    Result(AfterSend(s, 20 + 2), Handshake(pid))
  }

  /** Data memory starts at address 0x60 on every AVR; any address from there on serves. */
  const TX_BUF_ADDRESS: nat := 0x60

  function SendTxBuf(s: State, cnt: byte): Result
    requires |s.txBuf| == BUFSIZE && 4 <= cnt <= 12
  {
    var packet := s.txBuf[..cnt - 1];
    var t := AfterSend(s, TX_BUF_ADDRESS + cnt);
    Result(t.(history := s.history.(sent := s.history.sent + [packet])), Data(packet))
  }

  function HandleData(s: State, cnt: byte): Result
    requires Ready(s) && cnt <= BUFSIZE
  {
    if s.curTok == 0 then Result(s, Silence)
    else if s.rxLen != 0 then SendHandshake(s, PID_NAK)
    else if cnt < 4 then SendHandshake(s, PID_ACK)
    else SendHandshake(Accept(s, cnt), PID_ACK)
  }

  /** Take the packet and swap the buffers. */
  function Accept(s: State, cnt: byte): State
    requires Ready(s) && 4 <= cnt <= BUFSIZE
  {
    var packet := s.rxBuf[s.off..s.off + cnt];
    var h := s.history.(accepted := packet);
    s.(rxLen := cnt, rxTok := s.curTok, off := BUFSIZE - s.off,
       history := if s.curTok == PID_SETUP && cnt == BUFSIZE
                  then h.(setup := packet[1..9], pending := true, sent := [], oldAddr := s.devAddr, oldNew := s.newAddr,
                          wasReset := false)
                  else h)
  }

  function HandleIn(s: State): Result
    requires Ready(s)
  {
    if s.rxLen >= 1 then SendHandshake(s, PID_NAK)
    else if IsHandshake(s.txLen) then SendHandshake(s, s.txLen)
    else SendTxBuf(s.(txLen := PID_NAK), s.txLen)
  }

  /** `se0`: a data PID continues the last token; everything else must carry the device's address. */
  function Se0(s: State, cnt: byte): Result
    requires Ready(s) && cnt <= BUFSIZE
  {
    var token := s.rxBuf[s.off];
    if token == PID_DATA0 || token == PID_DATA1 then HandleData(s, cnt)
    else if ShiftLeft(s.rxBuf[s.off + 1]) != s.devAddr then Ignore(s)
    else if token == PID_IN then HandleIn(s)
    else if token == PID_SETUP || token == PID_OUT then Result(s.(curTok := token), Silence)
    else Ignore(s)
  }

  function Interrupt(s: State, f: Frame): Result
    requires Ready(s) && ValidFrame(f)
  {
    var t := Store(s, f.bytes);
    match f
    case Packet(bytes) => Se0(t, |bytes|)
    case Overflow(_) => Ignore(t)
  }
}
