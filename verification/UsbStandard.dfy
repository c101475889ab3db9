/** The replies and packet identifiers held against USB 2.0. */
module UsbStandard {
  import opened Bits
  import opened UsbState
  import opened UsbMain
  import opened UsbReply

  /** Section 8.3.1: the upper four bits of a packet identifier are the complement of the lower four. */
  lemma PidsAreChecked()
    ensures forall pid :: pid in [PID_OUT, PID_IN, PID_SETUP, PID_DATA0, PID_DATA1, PID_ACK, PID_NAK] ==>
              pid / 16 == 15 - pid % 16
    ensures [PID_OUT % 16, PID_IN % 16, PID_SETUP % 16, PID_DATA0 % 16, PID_DATA1 % 16, PID_ACK % 16, PID_NAK % 16]
         == [1, 9, 13, 3, 11, 2, 10]
  {
  }

  /** Section 9.4 and table 9-4: the recipient does not matter. GET_STATUS is 0, GET_DESCRIPTOR 6 with the type in the
      high byte of wValue, GET_CONFIGURATION 8, GET_INTERFACE 10; CLEAR_FEATURE 1, SET_FEATURE 3, SET_ADDRESS 5,
      SET_DESCRIPTOR 7, SET_CONFIGURATION 9, SET_INTERFACE 11 and SYNCH_FRAME 12 have no data here. */
  lemma StandardRequests(rq: seq<byte>, config: byte, version: seq<byte>, ioByte: byte)
    requires |rq| == 8 && rq[0] in {0x00, 0x01, 0x02, 0x80, 0x81, 0x82}
    ensures var reply := FullReply(rq, config, version, ioByte);
            && (rq[1] == 0 ==> reply == [0, 0])
            && (rq[1] == 6 ==> reply == DescriptorFor(rq[2], rq[3]))
            && (rq[1] == 8 ==> reply == [config])
            && (rq[1] == 10 ==> reply == [0])
            && (rq[1] in {1, 3, 5, 7, 9, 11, 12} ==> reply == [])
  {
    hide DescriptorFor, VendorReply;
  }

  /** The vendor requests of main.c: the version is 7, a register 10, the compatible-ID descriptor 126 with wIndex 4;
      SET_MODE 8, SET_REG 9 and all others have no data. */
  lemma VendorRequests(rq: seq<byte>, config: byte, version: seq<byte>, ioByte: byte)
    requires |rq| == 8 && rq[0] in {0x40, 0xc0}
    ensures var reply := FullReply(rq, config, version, ioByte);
            && (rq[1] == 7 ==> reply == version)
            && (rq[1] == 10 ==> reply == [ioByte])
            && (rq[1] == 126 ==> reply == if rq[4] == 4 && rq[5] == 0 then MS_DESCRIPTOR else [])
            && (rq[1] !in {7, 10, 126} ==> reply == [])
  {
    hide StandardReply;
  }

  /** wLength is the last two bytes of the request, low byte first. */
  lemma RepliesAreCut(rq: seq<byte>, config: byte, version: seq<byte>, ioByte: byte)
    requires |rq| == 8
    ensures var full, reply := FullReply(rq, config, version, ioByte), Reply(rq, config, version, ioByte);
            && reply <= full
            && (rq[7] != 0 && |full| < 256 ==> reply == full)
            && (rq[7] == 0 ==> |reply| == Min(|full|, rq[6]))
  {
    hide FullReply;
  }

  /** Section 9.5: a descriptor starts with its length and the type that was asked for. */
  lemma DescriptorsDescribeThemselves(low: byte, high: byte)
    ensures var d := DescriptorFor(low, high);
            d != [] ==> |d| >= 4 && d[1] == high && (high != 2 ==> d[0] as nat == |d|)
  {
  }

  /** Section 9.6.1: the device descriptor. Packets have eight bytes, there are two strings and one configuration. */
  lemma DeviceDescriptor(low: byte)
    ensures var d := DescriptorFor(low, 1); |d| == 18 && d[7] == 8 && d[14] == 1 && d[15] == 2 && d[16] == 0 && d[17] == 1
  {
  }

  /** Sections 9.6.3 and 9.6.5: the configuration descriptor holds the length of everything with it, here one interface
      descriptor of nine bytes without endpoints. */
  lemma ConfigurationDescriptor(low: byte)
    ensures var d := DescriptorFor(low, 2);
            && |d| == 18 && d[0] == 9 && d[2] == 18 && d[3] == 0 && d[4] == 1 && d[5] == 1
            && d[9] == 9 && d[10] == 4 && d[13] == 0
  {
  }

  /** Section 9.6.7: a text as a descriptor, two bytes for each character. */
  predicate Spells(d: seq<byte>, text: string) {
    && |d| == 2 + 2 * |text| && d[0] as nat == |d| && d[1] == 3
    && forall i :: 0 <= i < |text| ==> d[2 + 2 * i] as int == text[i] as int && d[3 + 2 * i] == 0
  }

  /** The strings by their numbers: language, manufacturer, product, no serial number, and the one that Windows asks
      for, which ends with the number of a vendor request. */
  lemma VendorString()
    ensures Spells(DescriptorFor(1, 3), "a.sakharov")
  {
    hide Spells;
    VendorText();
  }

  lemma VendorText()
    ensures Spells(STRING_VENDOR, "a.sakharov")
  {
  }

  lemma ProductString()
    ensures Spells(DescriptorFor(2, 3), "Virtual EPP")
  {
    hide Spells;
    ProductText();
  }

  lemma ProductText()
    ensures Spells(STRING_PRODUCT, "Virtual EPP")
  {
  }

  lemma OtherStrings()
    ensures DescriptorFor(0, 3) == [4, 3, 0x09, 0x04] && DescriptorFor(3, 3) == []
    ensures var d := DescriptorFor(0xee, 3);
            && |d| == 18 && d[0] == 18 && d[1] == 3 && d[16] == 126 && d[17] == 0
            && forall i :: 0 <= i < 7 ==> d[2 + 2 * i] as int == "MSFT100"[i] as int && d[3 + 2 * i] == 0
  {
  }

  /** SET_MODE: a mode above 2 becomes 2 where the request lies, and nothing else changes. */
  lemma ModeIsLimited(s: State, data: nat, rq: seq<byte>, lpt: byte)
    requires |rq| == 8 && data + 8 <= |s.rxBuf| && Request(s, data) == rq && rq[0] in {0x40, 0xc0} && rq[1] == 8
    ensures var h := FunctionSetupOf(s, data, rq, lpt);
            && h.len == 0 && h.s == s.(rxBuf := h.s.rxBuf) && |h.s.rxBuf| == |s.rxBuf|
            && WordOf(h.s.rxBuf[data + 2], h.s.rxBuf[data + 3]) == Min(WordOf(rq[2], rq[3]), 2)
            && forall k :: 0 <= k < |s.rxBuf| && k != data + 2 && k != data + 3 ==> h.s.rxBuf[k] == s.rxBuf[k]
  {
    assert Request(s, data)[2] == s.rxBuf[data + 2] && Request(s, data)[3] == s.rxBuf[data + 3];
  }
}
