/** What the device owes the host for a SETUP, said without pointers, flags or buffers. */
module UsbReply {
  import opened Bits
  import opened Crc16
  import opened UsbState
  import UsbMain

  /** Standard requests: USB 2.0, section 9.4, as far as the driver answers them. */
  function StandardReply(rq: seq<byte>, config: byte): seq<byte>
    requires |rq| == 8
  {
    match rq[1]
    case 0 => [0, 0]
    case 6 => UsbMain.DescriptorFor(rq[2], rq[3])
    case 8 => [config]
    case 10 => [0]
    case _ => []
  }

  /** Vendor requests to the device. */
  function VendorReply(rq: seq<byte>, version: seq<byte>, ioByte: byte): seq<byte>
    requires |rq| == 8
  {
    if rq[0] % 128 != 0x40 then []
    else match rq[1]
      case 126 => if WordOf(rq[4], rq[5]) == 4 then MS_DESCRIPTOR else []
      case 7 => version
      case 10 => [ioByte]
      case _ => []
  }

  function FullReply(rq: seq<byte>, config: byte, version: seq<byte>, ioByte: byte): seq<byte>
    requires |rq| == 8
  {
    if rq[0] / 32 % 4 == 0 then StandardReply(rq, config) else VendorReply(rq, version, ioByte)
  }

  /** The reply, cut to the length that the host asks for. */
  function Reply(rq: seq<byte>, config: byte, version: seq<byte>, ioByte: byte): seq<byte>
    requires |rq| == 8
  {
    var full := FullReply(rq, config, version, ioByte);
    var wLength := WordOf(rq[6], rq[7]);
    if wLength < |full| then full[..wLength] else full
  }

  /** A data packet without the sync byte: PID, data, CRC. */
  function DataPacket(pid: byte, data: seq<byte>): seq<byte> {
    [pid] + data + [CrcLow(data), CrcHigh(data)]
  }

  /** A message as packets of eight bytes with alternating PIDs; the first packet that is not full ends it. */
  function Packets(msg: seq<byte>, pid: byte): seq<seq<byte>> {
    if |msg| < 8 then [DataPacket(pid, msg)]
    else [DataPacket(pid, msg[..8])] + Packets(msg[8..], Toggle(pid))
  }

  /** The data packets that the device owes for the last SETUP, starting with DATA1. */
  function Owed(s: State): seq<seq<byte>> {
    if |s.history.setup| != 8 then []
    else Packets(Reply(s.history.setup, s.config, s.version, s.ioByte), PID_DATA1)
  }

  // ---- What the list of packets is ----

  /** Full packets, then exactly one that is not full; together the message. */
  lemma {:induction false} PacketCount(msg: seq<byte>, pid: byte)
    ensures |Packets(msg, pid)| == |msg| / 8 + 1
    decreases |msg|
  {
    hide DataPacket, Toggle;
    if |msg| >= 8 {
      PacketCount(msg[8..], Toggle(pid));
    }
  }

  lemma ToggleTwice(pid: byte)
    requires pid == PID_DATA0 || pid == PID_DATA1
    ensures Toggle(Toggle(pid)) == pid && (Toggle(pid) == PID_DATA0 || Toggle(pid) == PID_DATA1) && Toggle(pid) != pid
  {
  }

  /** Packet `j` carries bytes 8j to 8j+7 and its PID depends on the parity of `j`. */
  lemma {:induction false} PacketAt(msg: seq<byte>, pid: byte, j: nat)
    requires j <= |msg| / 8 && (pid == PID_DATA0 || pid == PID_DATA1)
    ensures j < |Packets(msg, pid)|
    ensures Packets(msg, pid)[j] ==
            DataPacket(if j % 2 == 0 then pid else Toggle(pid), msg[8 * j..if j < |msg| / 8 then 8 * j + 8 else |msg|])
    decreases j
  {
    hide DataPacket, Toggle;
    PacketCount(msg, pid);
    if j == 0 {
      assert |msg| < 8 ==> msg[0..|msg|] == msg;
      assert |msg| >= 8 ==> msg[0..8] == msg[..8];
    } else {
      ToggleTwice(pid);
      PacketAt(msg[8..], Toggle(pid), j - 1);
      var hi := if j < |msg| / 8 then 8 * j + 8 else |msg|;
      DropSlice(msg, 8, 8 * (j - 1), hi - 8);
    }
  }

  function Payload(packet: seq<byte>): seq<byte> {
    if |packet| < 3 then [] else packet[1..|packet| - 2]
  }

  function Payloads(packets: seq<seq<byte>>): seq<byte> {
    if packets == [] then [] else Payload(packets[0]) + Payloads(packets[1..])
  }

  lemma {:induction false} PacketsCarryMessage(msg: seq<byte>, pid: byte)
    ensures Payloads(Packets(msg, pid)) == msg
    decreases |msg|
  {
    hide CrcLow, CrcHigh, Toggle;
    var ps := Packets(msg, pid);
    if |msg| < 8 {
      assert Payload(ps[0]) == msg;
      assert Payloads(ps[1..]) == [];
    } else {
      PacketsCarryMessage(msg[8..], Toggle(pid));
      assert Payload(ps[0]) == msg[..8];
      assert ps[1..] == Packets(msg[8..], Toggle(pid));
    }
  }
}
