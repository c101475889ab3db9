/** The packet interrupt keeps what the main loop relies on, wherever it strikes. */
module UsbInterleaving {
  import opened Bits
  import opened UsbState
  import Receive
  import opened UsbMain
  import opened UsbInterrupt
  import opened UsbReply
  import opened UsbSetup
  import opened UsbInvariant
  import opened UsbDelivery

  predicate Good(s: State) {
    Sizes(s) && Handover(s) && SetupPrepared(s) && Conserves(s)
  }

  lemma GoodFacts(s: State)
    requires Good(s)
    ensures Sizes(s) && Handover(s) && InRange(s) && Ready(s)
    ensures s.rxLen == 0 ==> !s.pc.Process? && !s.history.pending
  {
    hide SetupPrepared, Conserves;
  }

  /** Only the interrupt's half of the receive buffer and the current token differ. */
  predicate Quiet(s: State, t: State) {
    var half := BUFSIZE - s.off;
    && t == s.(rxBuf := t.rxBuf, curTok := t.curTok)
    && |t.rxBuf| == |s.rxBuf| == 2 * BUFSIZE && (s.off == 0 || s.off == BUFSIZE)
    && t.rxBuf[half..half + BUFSIZE] == s.rxBuf[half..half + BUFSIZE]
  }

  lemma StoreIsQuiet(s: State, bytes: seq<byte>)
    requires Ready(s) && |bytes| <= BUFSIZE
    ensures Quiet(s, Store(s, bytes)) && Store(s, bytes).rxBuf[s.off..s.off + |bytes|] == bytes
    ensures Store(s, bytes) == s.(rxBuf := Store(s, bytes).rxBuf)
  {
    var t := Store(s, bytes);
    var half := BUFSIZE - s.off;
    forall k | half <= k < half + BUFSIZE ensures t.rxBuf[k] == s.rxBuf[k] {
    }
  }

  lemma Se0Cases(s: State, cnt: byte)
    requires Ready(s) && cnt <= BUFSIZE
    ensures var r := Se0(s, cnt);
            || (r.s == s.(curTok := r.s.curTok) && !r.answer.Data?)
            || (s.rxLen == 0 && cnt >= 4 && r == Result(Accept(s, cnt), Handshake(PID_ACK)))
            || (s.rxLen == 0 && !IsHandshake(s.txLen) && r == SendTxBuf(s.(txLen := PID_NAK), s.txLen))
  {
  }

  /** What an interrupt can do. */
  lemma InterruptCases(s: State, f: Frame)
    requires Ready(s) && ValidFrame(f)
    ensures var u, r := Store(s, f.bytes), Interrupt(s, f);
            && Quiet(s, u)
            && ( || (Quiet(s, r.s) && !r.answer.Data?)
                 || (s.rxLen == 0 && |f.bytes| >= 4 && r == Result(Accept(u, |f.bytes|), Handshake(PID_ACK)))
                 || (s.rxLen == 0 && !IsHandshake(s.txLen) && r == SendTxBuf(u.(txLen := PID_NAK), s.txLen)))
  {
    StoreIsQuiet(s, f.bytes);
    hide Se0, Store, Received, Sendable;
    if f.Packet? {
      Se0Cases(Store(s, f.bytes), |f.bytes|);
    }
  }

  lemma StoredHead(rxBuf: seq<byte>, off: nat, bytes: seq<byte>)
    requires |bytes| >= 2 && off + |bytes| <= |rxBuf| && rxBuf[off..off + |bytes|] == bytes
    ensures rxBuf[off] == bytes[0] && rxBuf[off + 1] == bytes[1]
  {
    var stored := rxBuf[off..off + |bytes|];
    assert rxBuf[off] == stored[0] && rxBuf[off + 1] == stored[1];
  }

  // ---- What the host sees, packet by packet ----

  /** Nothing is answered, and what follows without a token of its own is not answered either. */
  predicate Ignored(s: State, r: Result) { Quiet(s, r.s) && r.s.curTok == 0 && r.answer == Silence }

  predicate Handshaken(s: State, r: Result, pid: byte) { Quiet(s, r.s) && r.s.curTok == s.curTok && r.answer == Handshake(pid) }

  /** A packet with a data PID, 0xc3 or 0x4b, belongs to the token before it. */
  lemma DataPacketAnswer(s: State, bytes: seq<byte>)
    requires Ready(s) && 2 <= |bytes| <= 11 && (bytes[0] == 0xc3 || bytes[0] == 0x4b)
    ensures var r := Interrupt(s, Receive.Packet(bytes));
            && (s.curTok == 0 ==> Ignored(s, r))
            && (s.curTok != 0 && s.rxLen != 0 ==> Handshaken(s, r, 0x5a))
            && (s.curTok != 0 && s.rxLen == 0 && |bytes| < 4 ==> Handshaken(s, r, 0xd2))
            && (s.curTok != 0 && s.rxLen == 0 && |bytes| >= 4 ==>
                  r.answer == Handshake(0xd2) && r.s.rxLen == |bytes| && r.s.rxTok == s.curTok
                  && r.s.history.accepted == bytes)
  {
    hide Store, Received, Sendable, IsHandshake;
    var t := Store(s, bytes);
    StoreIsQuiet(s, bytes);
    StoredHead(t.rxBuf, s.off, bytes);
  }

  /** An address in a token, shifted to the left, is the device's. */
  lemma AddressMatches(b: byte, devAddr: byte)
    requires devAddr % 2 == 0
    ensures ShiftLeft(b) == devAddr <==> b % 128 == devAddr / 2
  {
  }

  /** A token for another address. */
  lemma ForeignTokenAnswer(s: State, bytes: seq<byte>)
    requires Ready(s) && s.devAddr % 2 == 0 && 2 <= |bytes| <= 11
    requires bytes[0] != 0xc3 && bytes[0] != 0x4b && bytes[1] % 128 != s.devAddr / 2
    ensures Ignored(s, Interrupt(s, Receive.Packet(bytes)))
  {
    hide Store, Received, Sendable, IsHandshake, ShiftLeft;
    var t := Store(s, bytes);
    StoreIsQuiet(s, bytes);
    StoredHead(t.rxBuf, s.off, bytes);
    AddressMatches(bytes[1], s.devAddr);
  }

  /** A token for the device: IN is 0x69, SETUP 0x2d and OUT 0xe1; NAK is 0x5a. */
  lemma OwnTokenAnswer(s: State, bytes: seq<byte>)
    requires Ready(s) && s.devAddr % 2 == 0 && 2 <= |bytes| <= 11
    requires bytes[0] != 0xc3 && bytes[0] != 0x4b && bytes[1] % 128 == s.devAddr / 2
    ensures var r := Interrupt(s, Receive.Packet(bytes)); var pid := bytes[0];
            && (pid == 0x69 && s.rxLen != 0 ==> Handshaken(s, r, 0x5a))
            && (pid == 0x69 && s.rxLen == 0 && s.txLen / 16 % 2 == 1 ==> Handshaken(s, r, s.txLen))
            && (pid == 0x69 && s.rxLen == 0 && s.txLen / 16 % 2 == 0 ==>
                  r.answer == Data(s.txBuf[..s.txLen - 1]) && r.s.txLen == 0x5a && r.s.curTok == s.curTok)
            && (pid == 0x2d || pid == 0xe1 ==> Quiet(s, r.s) && r.s.curTok == pid && r.answer == Silence)
            && (pid != 0x69 && pid != 0x2d && pid != 0xe1 ==> Ignored(s, r))
  {
    hide Store, Received, ShiftLeft;
    var t := Store(s, bytes);
    StoreIsQuiet(s, bytes);
    StoredHead(t.rxBuf, s.off, bytes);
    AddressMatches(bytes[1], s.devAddr);
  }

  /** A packet that does not fit. */
  lemma OverflowAnswer(s: State, bytes: seq<byte>)
    requires Ready(s) && |bytes| == 11
    ensures Ignored(s, Interrupt(s, Receive.Overflow(bytes)))
  {
    hide Store;
    StoreIsQuiet(s, bytes);
  }

  // ---- Nothing taken, nothing sent ----

  lemma KeptElsewhere(old_: seq<byte>, new_: seq<byte>, off: nat, rxLen: byte, accepted: seq<byte>)
    requires Kept(old_, off, rxLen, accepted) && |new_| == |old_|
    requires new_[BUFSIZE - off..2 * BUFSIZE - off] == old_[BUFSIZE - off..2 * BUFSIZE - off]
    ensures Kept(new_, off, rxLen, accepted)
  {
    var half := BUFSIZE - off;
    var a, b := old_[half..half + BUFSIZE], new_[half..half + BUFSIZE];
    assert a == b;
    forall k | half <= k < half + rxLen ensures new_[k] == old_[k] {
      assert a[k - half] == b[k - half];
    }
    assert new_[half..half + rxLen] == old_[half..half + rxLen];
  }

  lemma QuietKeepsHandover(s: State, t: State)
    requires Sizes(s) && Handover(s) && Quiet(s, t)
    ensures Sizes(t) && Handover(t)
  {
    assert Sizes(t) by { hide Sendable, Received, NoUserPath, Locks, PcInRange; }
    hide Sizes, Kept, TakenSetup, PendingMeans, Handles;
    if s.rxLen != 0 && !AtLimit(s.pc) && !s.pc.RxDone? {
      KeptElsewhere(s.rxBuf, t.rxBuf, s.off, s.rxLen, s.history.accepted);
    }
  }

  lemma QuietKeepsRequest(s: State, t: State)
    requires Quiet(s, t)
    ensures Request(t, BUFSIZE + 1 - s.off) == Request(s, BUFSIZE + 1 - s.off)
  {
    var half := BUFSIZE - s.off;
    assert s.rxBuf[half + 1..half + 9] == s.rxBuf[half..half + BUFSIZE][1..9];
    assert t.rxBuf[half + 1..half + 9] == t.rxBuf[half..half + BUFSIZE][1..9];
  }

  lemma QuietKeepsPrepared(s: State, t: State, data: nat, at: SetupPc)
    requires |s.txBuf| == BUFSIZE && |s.history.setup| == 8
    requires Quiet(s, t) && data == BUFSIZE + 1 - s.off && Prepared(s, data, at)
    ensures Prepared(t, data, at)
  {
    QuietKeepsRequest(s, t);
    hide Request, FullReply, Points, ReadBytes;
    if at.Limit? { SameReads(s, t, 0, at.replyLen); }
  }

  lemma QuietKeeps(s: State, t: State)
    requires Good(s) && Quiet(s, t)
    ensures Good(t)
  {
    QuietKeepsHandover(s, t);
    assert Conserves(t) by {
      hide Sizes, Handover, Queue, Readable, Reply;
      SameQueue(s, t);
    }
    hide Conserves, Prepared;
    if s.pc.Process? && s.pc.at.Setup? {
      QuietKeepsPrepared(s, t, s.pc.at.data, s.pc.at.rest);
    }
  }

  // ---- A packet taken ----

  lemma AcceptKeepsHandover(s: State, cnt: byte)
    requires Sizes(s) && Handover(s) && s.rxLen == 0 && 4 <= cnt <= BUFSIZE
    ensures var t := Accept(s, cnt); Sizes(t) && Handover(t)
  {
  }

  lemma AcceptKeeps(s: State, cnt: byte)
    requires Good(s) && s.rxLen == 0 && 4 <= cnt <= BUFSIZE
    ensures Good(Accept(s, cnt))
  {
    AcceptKeepsHandover(s, cnt);
    var t := Accept(s, cnt);
    assert Conserves(t) by {
      hide Sizes, Handover, Queue, Readable, Reply;
      SameQueue(s, t);
    }
  }

  // ---- A packet sent ----

  lemma SendKeepsHandover(s: State)
    requires Sizes(s) && Handover(s) && s.rxLen == 0 && !IsHandshake(s.txLen)
    ensures var t := SendTxBuf(s.(txLen := PID_NAK), s.txLen).s;
            && Sizes(t) && Handover(t) && !Processing(t.pc) && !s.history.pending
            && t == s.(txLen := PID_NAK, devAddr := ShiftLeft(s.newAddr), history := t.history)
            && t.history == s.history.(sent := s.history.sent + [s.txBuf[..s.txLen - 1]])
  {
  }

  lemma MoveToSent(sent: seq<seq<byte>>, packet: seq<byte>, rest: seq<seq<byte>>)
    ensures sent + ([packet] + rest) == (sent + [packet]) + ([] + rest)
  {
  }

  lemma SendConserves(s: State)
    requires Sizes(s) && Handover(s) && Conserves(s) && s.rxLen == 0 && !IsHandshake(s.txLen)
    ensures var t := SendTxBuf(s.(txLen := PID_NAK), s.txLen).s; Sizes(t) && Handover(t) && Conserves(t)
  {
    SendKeepsHandover(s);
    var t := SendTxBuf(s.(txLen := PID_NAK), s.txLen).s;
    ReadBytesAdvance(s, t, 0, s.msgLen);
    hide SendTxBuf, Handover, Reply, ReadBytes, Packets;
    assert !s.pc.Build? by { hide InRange, Ready, NoUserPath; }
    assert Queue(s) == [s.txBuf[..s.txLen - 1]] + Rest(s, 0, s.txBuf[0]);
    assert Queue(t) == [] + Rest(t, 0, t.txBuf[0]);
    hide Sizes, Queue;
    MoveToSent(s.history.sent, s.txBuf[..s.txLen - 1], Rest(s, 0, s.txBuf[0]));
  }

  lemma SendKeeps(s: State)
    requires Good(s) && s.rxLen == 0 && !IsHandshake(s.txLen)
    ensures Good(SendTxBuf(s.(txLen := PID_NAK), s.txLen).s)
  {
    SendKeepsHandover(s);
    SendConserves(s);
    hide SendTxBuf, Sizes, Handover, Conserves, Prepared;
  }

  // ---- Together ----

  lemma InterruptKeeps(s: State, f: Frame)
    requires Good(s) && ValidFrame(f)
    ensures Good(Interrupt(s, f).s)
  {
    InterruptCases(s, f);
    var u, r := Store(s, f.bytes), Interrupt(s, f);
    QuietKeeps(s, u);
    hide Store, Interrupt, Good, Accept, SendTxBuf;
    if Quiet(s, r.s) && !r.answer.Data? {
      QuietKeeps(s, r.s);
    } else if r.answer.Data? {
      SendKeeps(u);
    } else {
      AcceptKeeps(u, |f.bytes|);
    }
  }

  lemma MainKeeps(s: State, env: Env)
    requires Good(s)
    ensures Good(MainStep(s, env))
  {
    MainConserves(s, env);
  }
}
