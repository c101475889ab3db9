/** The whole path: what a receiver at the other end of the line makes of the device's answers. */
module UsbOnTheLine {
  import opened Bits
  import opened Crc16
  import opened Receive
  import LineRoundTrip
  import CrcDetection
  import opened UsbState
  import opened UsbInterrupt
  import opened UsbReply
  import opened UsbRuns
  import opened UsbTheorems
  import opened UsbDriver

  /** The symbols that the answer puts on the line: its levels and an end of packet. */
  lemma AnswerOnTheWire(packet: seq<byte>)
    ensures LineRoundTrip.Wire(packet) == LineRoundTrip.Symbols(Levels(Data(packet))) + LineRoundTrip.EOP
    ensures LineRoundTrip.Wire(packet) == LineRoundTrip.SYNC_LEVELS + LineRoundTrip.Heard(packet)
  {
    LineRoundTrip.AfterSync(packet);
  }

  lemma OwedPacket(s: State, j: nat)
    requires |s.history.setup| == 8 && j < |Owed(s)|
    ensures 3 <= |Owed(s)[j]| <= BUFSIZE && (Owed(s)[j][0] == PID_DATA0 || Owed(s)[j][0] == PID_DATA1)
  {
    hide Reply, Packets, CrcLow, CrcHigh;
    var msg := Reply(s.history.setup, s.config, s.version, s.ioByte);
    PacketCount(msg, PID_DATA1);
    PacketAt(msg, PID_DATA1, j);
  }

  /** Every packet that is owed passes the check of USB 2.0, section 8.3.5.2: its data and CRC leave the residue. */
  lemma OwedPacketChecks(s: State, j: nat)
    requires |s.history.setup| == 8 && j < |Owed(s)|
    ensures Owed(s)[j] != [] && Register(BitStream(Owed(s)[j][1..]), Seed()) == CrcDetection.RESIDUE
  {
    hide Reply, Packets, CrcLow, CrcHigh, Register, BitStream;
    var msg := Reply(s.history.setup, s.config, s.version, s.ioByte);
    PacketCount(msg, PID_DATA1);
    PacketAt(msg, PID_DATA1, j);
    var data := msg[8 * j..if j < |msg| / 8 then 8 * j + 8 else |msg|];
    assert Owed(s)[j][1..] == CrcDetection.Packet(data);
    CrcDetection.PacketLeavesResidue(data);
  }

  /** A receiver that hears the data packet with which the device answers any line gets, bit for bit, the next
      packet that is owed for the last accepted SETUP. */
  lemma HostHearsNextOwed(version: seq<byte>, events: seq<Event>, line: seq<Symbol>)
    requires ValidRun(version, events)
    ensures var s := Run(version, events); var r := Interrupt(s, FrameOf(line));
            r.answer.Data? ==>
              && |s.history.sent| < |Owed(s)|
              && Listen(LineRoundTrip.Heard(r.answer.packet), AFTER_SYNC, []) == Packet(Owed(s)[|s.history.sent|])
  {
    hide Run, Owed, Listen, LineRoundTrip.Heard;
    var s := Run(version, events);
    var r := Interrupt(s, FrameOf(line));
    DataIsNextOwed(version, events, FrameOf(line));
    if r.answer.Data? {
      OwedPacket(s, |s.history.sent|);
      LineRoundTrip.RoundTrip(r.answer.packet);
    }
  }

  /** The driver as it is written: whenever it is in a state of a run, and it always is, what it has sent since the
      last SETUP is the beginning of what it owes, and its address is the one that USB 2.0, section 9.4.6 asks for. */
  lemma DriverIsCorrect(d: Driver)
    requires d.Valid()
    ensures d.history.sent <= Owed(d.Abs()) && (d.history.pending ==> d.history.sent == [])
    ensures IsSetAddress(d.history.setup) && !d.history.wasReset ==>
              d.deviceAddr == if d.history.sent == [] then d.history.oldAddr else ShiftLeft(d.history.setup[2])
    ensures !d.useUserRw && d.history.userCalls == 0
  {
    hide Run, Owed, IsSetAddress;
    SentIsOwed(d.version, d.events);
    SetAddressTiming(d.version, d.events);
    NoUserReadWrite(d.version, d.events);
  }
}
