/** usbDriverSetup and usbFunctionSetup leave a message pointer to exactly the reply that is owed. */
module UsbSetup {
  import opened Bits
  import opened UsbState
  import opened UsbMain
  import opened UsbReply

  /** The next `n` bytes of the message lie inside the object that the pointer points into, the flag says which
      memory it is in, and in the transmit buffer they lie behind what a packet of two bytes needs. */
  predicate Points(p: MsgPtr, flagRom: bool, n: nat) {
    n == 0 ||
    match p.region
    case Rom(bytes) => flagRom && p.off + n <= |bytes|
    case Ram(bytes) => !flagRom && p.off + n <= |bytes|
    case TxBuffer => !flagRom && 9 <= p.off && p.off + n <= BUFSIZE
    case Configuration => !flagRom && p.off + n <= 1
    case IoByte => !flagRom && p.off + n <= 1
  }

  lemma DriverReplies(s: State, rq: seq<byte>)
    requires |rq| == 8 && |s.txBuf| == BUFSIZE && !s.flagRom && s.txBuf[9] == 0
    ensures var h := DriverSetup(s, rq);
            && Points(h.s.msgPtr, h.s.flagRom, h.len)
            && ReadBytes(h.s, 0, h.len) == StandardReply(rq, h.s.config)
  {
    var h := DriverSetup(s, rq);
    if rq[1] == 6 {
      var found := DescriptorFor(rq[2], rq[3]);
      hide DescriptorFor;
      assert ReadBytes(h.s, 0, h.len) == found;
    } else {
      assert ReadBytes(h.s, 0, h.len) == StandardReply(rq, h.s.config);
    }
  }

  lemma FunctionReplies(s: State, data: nat, rq: seq<byte>, lpt: byte)
    requires |rq| == 8 && data + 8 <= |s.rxBuf| && |s.version| == 8 && !s.flagRom
    ensures var h := FunctionSetupOf(s, data, rq, lpt);
            && Points(h.s.msgPtr, h.s.flagRom, h.len)
            && ReadBytes(h.s, 0, h.len) == VendorReply(rq, h.s.version, h.s.ioByte)
  {
    var h := FunctionSetupOf(s, data, rq, lpt);
    assert ReadBytes(h.s, 0, h.len) == VendorReply(rq, h.s.version, h.s.ioByte);
  }
}
