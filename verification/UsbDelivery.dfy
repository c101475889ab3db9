/** Conservation: what has been sent since the SETUP, what lies ready in the transmit buffer and what is still
    to be read through the message pointer are together what the device owes. */
module UsbDelivery {
  import opened Bits
  import opened Crc16
  import opened UsbState
  import opened UsbMain
  import opened UsbReply
  import opened UsbSetup
  import opened UsbInvariant

  // ---- Reading through the message pointer ----

  lemma ReadBytesSplit(s: State, i: nat, k: nat, n: nat)
    requires k <= n
    ensures ReadBytes(s, i, n)[..k] == ReadBytes(s, i, k)
    ensures ReadBytes(s, i, n)[k..] == ReadBytes(s, i + k, n - k)
  {
    hide ReadByte;
  }

  /** Writing the front of the transmit buffer does not change what the pointer reads. */
  predicate SameMessage(s: State, t: State) {
    && t.msgPtr == s.msgPtr && t.flagRom == s.flagRom && t.config == s.config && t.ioByte == s.ioByte
    && |t.txBuf| == |s.txBuf|
    && (s.msgPtr.region.TxBuffer? ==> forall k :: 9 <= k < |s.txBuf| ==> t.txBuf[k] == s.txBuf[k])
  }

  lemma ReadBytesAgree(s: State, t: State, i: nat, n: nat)
    requires SameMessage(s, t) && Points(s.msgPtr, s.flagRom, i + n)
    ensures ReadBytes(t, i, n) == ReadBytes(s, i, n)
  {
    forall k | 0 <= k < n ensures ReadBytes(t, i, n)[k] == ReadBytes(s, i, n)[k] {
    }
  }

  lemma ReadBytesAdvance(s: State, t: State, k: nat, n: nat)
    requires t.msgPtr == MsgPtr(s.msgPtr.region, s.msgPtr.off + k)
    requires t.flagRom == s.flagRom && t.config == s.config && t.ioByte == s.ioByte && t.txBuf == s.txBuf
    ensures ReadBytes(t, 0, n) == ReadBytes(s, k, n)
  {
    forall j | 0 <= j < n ensures ReadBytes(t, 0, n)[j] == ReadBytes(s, k, n)[j] {
    }
  }

  // ---- What is still to come ----

  /** The packets for the part of the message that no packet has been started for. */
  function Rest(s: State, at: nat, pid: byte): seq<seq<byte>> {
    if s.msgLen == NO_MSG then [] else Packets(ReadBytes(s, at, s.msgLen), Toggle(pid))
  }

  /** The packet being built, and what follows it. */
  function Started(s: State, data: seq<byte>, at: nat, pid: byte): seq<seq<byte>> {
    [DataPacket(pid, data)] + if |data| < 8 then [] else Rest(s, at, pid)
  }

  function Queue(s: State): seq<seq<byte>>
    requires |s.txBuf| == BUFSIZE && PcInRange(s.pc) && Sendable(s.txLen)
  {
    var pid := s.txBuf[0];
    match s.pc
    case Build(Toggling) => Rest(s, 0, pid)
    case Build(Copy(wantLen, i)) => Started(s, s.txBuf[1..1 + i] + ReadBytes(s, i, wantLen - i), wantLen, pid)
    case Build(AppendLow(count)) => Started(s, s.txBuf[1..1 + count], 0, pid)
    case Build(AppendHigh(count, _)) => Started(s, s.txBuf[1..1 + count], 0, pid)
    case Build(Publish(len)) => [s.txBuf[..len - 1]] + if len < 12 then [] else Rest(s, 0, pid)
    case _ => (if IsHandshake(s.txLen) then [] else [s.txBuf[..s.txLen - 1]]) + Rest(s, 0, pid)
  }

  /** The pointer is good for the rest of the message. */
  predicate Readable(s: State)
    requires |s.txBuf| == BUFSIZE && PcInRange(s.pc)
  {
    var p, n := s.msgPtr, s.msgLen as nat;
    match s.pc
    case Build(Toggling) => n != NO_MSG as nat && Points(p, s.flagRom, n)
    case Build(Copy(wantLen, i)) => n != NO_MSG as nat && Points(p, s.flagRom, wantLen + n) && (wantLen < 8 ==> n == 0)
    case Build(AppendLow(count)) => Behind(s, count)
    case Build(AppendHigh(count, crcHigh)) =>
      var data := s.txBuf[1..1 + count];
      Behind(s, count) && s.txBuf[1 + count] == CrcLow(data) && crcHigh == CrcHigh(data)
    case Build(Publish(len)) => n != NO_MSG as nat && Points(p, s.flagRom, n) && (len < 12 ==> n == 0)
    case _ => n == NO_MSG as nat || Points(p, s.flagRom, n)
  }

  /** `count` bytes have just been read. */
  predicate Behind(s: State, count: nat) {
    && s.msgLen != NO_MSG && (count < 8 ==> s.msgLen == 0) && s.msgPtr.off >= count
    && Points(MsgPtr(s.msgPtr.region, s.msgPtr.off - count), s.flagRom, count + s.msgLen as nat)
  }

  predicate Conserves(s: State)
    requires |s.txBuf| == BUFSIZE && PcInRange(s.pc) && Sendable(s.txLen) && PendingMeans(s.history)
  {
    !s.history.pending ==> Readable(s) && Owed(s) == s.history.sent + Queue(s)
  }

  // ---- usbBuildTxBlock ----

  /** Starting a packet: the rest of the message is cut after at most eight bytes. */
  lemma StartPacket(msg: seq<byte>, pid: byte)
    ensures |msg| < 8 ==> Packets(msg, pid) == [DataPacket(pid, msg)]
    ensures |msg| >= 8 ==> Packets(msg, pid) == [DataPacket(pid, msg[..8])] + Packets(msg[8..], Toggle(pid))
  {
  }

  lemma TogglingStaysReadable(s: State)
    requires Sizes(s) && s.pc == Build(BuildPc.Toggling) && Readable(s)
    ensures Readable(BuildStep(s, s.pc.tx))
  {
    hide CrcLow, CrcHigh, ReadByte, ReadBytes, Received, Sendable, IsHandshake, Toggle;
  }

  lemma TogglingKeepsQueue(s: State)
    requires Sizes(s) && s.pc == Build(BuildPc.Toggling) && Readable(s)
    ensures var t := BuildStep(s, s.pc.tx); Queue(t) == Queue(s)
  {
    hide Packets, DataPacket, CrcLow, CrcHigh, ReadByte, ReadBytes, Received, Sendable, IsHandshake, Toggle;
    var t := BuildStep(s, s.pc.tx);
    var wantLen: byte := if s.msgLen > 8 then 8 else s.msgLen;
    var pid := Toggle(s.txBuf[0]);
    assert SameMessage(s, t);
    assert t.txBuf[1..1] == [];
    assert [] + ReadBytes(t, 0, wantLen) == ReadBytes(t, 0, wantLen);
    assert Queue(t) == Started(t, ReadBytes(t, 0, wantLen), wantLen, pid);
    assert Queue(s) == Packets(ReadBytes(s, 0, s.msgLen), pid);
    ReadBytesAgree(s, t, 0, s.msgLen);
    ReadBytesSplit(t, 0, wantLen, s.msgLen);
    StartPacket(ReadBytes(s, 0, s.msgLen), pid);
  }

  /** `SameMessage` after a store in front of the staged reply. */
  lemma StoreKeepsMessage(s: State, t: State, at: nat, b: byte)
    requires |s.txBuf| == BUFSIZE && at < BUFSIZE && t.txBuf == s.txBuf[at := b]
    requires t.msgPtr == s.msgPtr && t.flagRom == s.flagRom && t.config == s.config && t.ioByte == s.ioByte
    requires at < 9 || !s.msgPtr.region.TxBuffer?
    ensures SameMessage(s, t)
  {
  }

  /** Storing the next byte behind the data. */
  lemma StoreNext(txBuf: seq<byte>, i: nat, b: byte)
    requires |txBuf| == BUFSIZE && 1 + i < BUFSIZE
    ensures txBuf[1 + i := b][1..2 + i] == txBuf[1..1 + i] + [b]
    ensures txBuf[1 + i := b][1..1 + i] == txBuf[1..1 + i]
  {
  }

  lemma CopyStaysReadable(s: State)
    requires Sizes(s) && s.pc.Build? && s.pc.tx.Copy? && Readable(s)
    ensures Readable(BuildStep(s, s.pc.tx))
  {
    hide CrcLow, CrcHigh, ReadByte, ReadBytes, Received, Sendable, IsHandshake, Toggle, NoUserPath;
  }

  lemma MoveNext(txBuf: seq<byte>, i: nat, b: byte, rest: seq<byte>)
    requires |txBuf| == BUFSIZE && 1 + i < BUFSIZE
    ensures txBuf[1..1 + i] + ([b] + rest) == txBuf[1 + i := b][1..2 + i] + rest
  {
    StoreNext(txBuf, i, b);
  }

  lemma CopyKeepsQueue(s: State)
    requires Sizes(s) && s.pc.Build? && s.pc.tx.Copy? && Readable(s) && s.pc.tx.i + 1 < s.pc.tx.wantLen
    ensures Queue(BuildStep(s, s.pc.tx)) == Queue(s)
  {
    hide Packets, DataPacket, CrcLow, CrcHigh, ReadByte, ReadBytes, Received, Sendable, IsHandshake, Toggle, NoUserPath;
    var t := BuildStep(s, s.pc.tx);
    var wantLen, i, b := s.pc.tx.wantLen, s.pc.tx.i, ReadByte(s, s.pc.tx.i);
    StoreKeepsMessage(s, t, 1 + i, b);
    ReadBytesAgree(s, t, i + 1, wantLen - i - 1);
    ReadBytesAgree(s, t, wantLen, s.msgLen);
    var rest := ReadBytes(t, i + 1, wantLen - i - 1);
    assert ReadBytes(s, i, wantLen - i) == [b] + rest;
    MoveNext(s.txBuf, i, b, rest);
  }

  lemma LastCopyKeepsQueue(s: State)
    requires Sizes(s) && s.pc.Build? && s.pc.tx.Copy? && Readable(s) && s.pc.tx.i + 1 == s.pc.tx.wantLen
    ensures Queue(BuildStep(s, s.pc.tx)) == Queue(s)
  {
    hide Packets, DataPacket, CrcLow, CrcHigh, ReadByte, ReadBytes, Received, Sendable, IsHandshake, Toggle, NoUserPath;
    var t := BuildStep(s, s.pc.tx);
    var wantLen, i, b := s.pc.tx.wantLen, s.pc.tx.i, ReadByte(s, s.pc.tx.i);
    var u := s.(txBuf := t.txBuf);
    StoreKeepsMessage(s, u, 1 + i, b);
    ReadBytesAgree(s, u, wantLen, s.msgLen);
    ReadBytesAdvance(u, t, wantLen, s.msgLen);
    assert ReadBytes(s, i, 1) == [b];
    StoreNext(s.txBuf, i, b);
  }

  lemma AppendStaysReadable(s: State)
    requires Sizes(s) && s.pc.Build? && (s.pc.tx.AppendLow? || s.pc.tx.AppendHigh?) && Readable(s)
    ensures Readable(BuildStep(s, s.pc.tx))
  {
    hide CrcLow, CrcHigh, ReadByte, ReadBytes, Received, Sendable, IsHandshake, Toggle, NoUserPath;
    if s.pc.tx.AppendLow? {
      StoreNext(s.txBuf, s.pc.tx.count, CrcLow(s.txBuf[1..1 + s.pc.tx.count]));
    }
  }

  lemma AppendLowKeepsQueue(s: State)
    requires Sizes(s) && s.pc.Build? && s.pc.tx.AppendLow? && Readable(s)
    ensures Queue(BuildStep(s, s.pc.tx)) == Queue(s)
  {
    hide Packets, DataPacket, CrcLow, CrcHigh, ReadByte, ReadBytes, Received, Sendable, IsHandshake, Toggle, NoUserPath;
    var t := BuildStep(s, s.pc.tx);
    var count := s.pc.tx.count;
    var low := CrcLow(s.txBuf[1..1 + count]);
    StoreNext(s.txBuf, count, low);
    if s.msgLen > 0 {
      StoreKeepsMessage(s, t, 1 + count, low);
      ReadBytesAgree(s, t, 0, s.msgLen);
    }
  }

  lemma AppendHighKeepsQueue(s: State)
    requires Sizes(s) && s.pc.Build? && s.pc.tx.AppendHigh? && Readable(s)
    ensures Queue(BuildStep(s, s.pc.tx)) == Queue(s)
  {
    hide Packets, CrcLow, CrcHigh, ReadByte, ReadBytes, Received, Sendable, IsHandshake, Toggle, NoUserPath;
    var t := BuildStep(s, s.pc.tx);
    var count := s.pc.tx.count;
    assert t.txBuf[..count + 3] == DataPacket(s.txBuf[0], s.txBuf[1..1 + count]);
    if s.msgLen > 0 {
      StoreKeepsMessage(s, t, 2 + count, s.pc.tx.crcHigh);
      ReadBytesAgree(s, t, 0, s.msgLen);
    }
  }

  lemma PublishKeepsQueue(s: State)
    requires Sizes(s) && s.pc.Build? && s.pc.tx.Publish? && Readable(s)
    ensures Readable(BuildStep(s, s.pc.tx)) && Queue(BuildStep(s, s.pc.tx)) == Queue(s)
  {
    hide Packets, DataPacket, CrcLow, CrcHigh, ReadByte, ReadBytes, Received, Toggle, NoUserPath;
    var t := BuildStep(s, s.pc.tx);
    if s.pc.tx.txLen == 12 {
      ReadBytesAgree(s, t, 0, s.msgLen);
    }
  }

  /** No statement of usbBuildTxBlock adds, loses or changes a packet. */
  lemma BuildConserves(s: State)
    requires Sizes(s) && s.pc.Build? && Handover(s) && Conserves(s)
    ensures var t := BuildStep(s, s.pc.tx); !t.pc.Process? && Sizes(t) && PendingMeans(t.history) && Conserves(t)
  {
    hide Queue, Readable, Packets, Reply, CrcLow, CrcHigh, ReadByte;
    BuildKeepsSizes(s);
    if !s.history.pending {
      match s.pc.tx
      case Toggling => TogglingStaysReadable(s); TogglingKeepsQueue(s);
      case Copy(wantLen, i) =>
        CopyStaysReadable(s);
        if i + 1 < wantLen { CopyKeepsQueue(s); } else { LastCopyKeepsQueue(s); }
      case AppendLow(_) => AppendStaysReadable(s); AppendLowKeepsQueue(s);
      case AppendHigh(_, _) => AppendStaysReadable(s); AppendHighKeepsQueue(s);
      case Publish(_) => PublishKeepsQueue(s);
    }
  }

  // ---- Steps that leave the outgoing side alone ----

  predicate SameOutgoing(s: State, t: State) {
    && t.txBuf == s.txBuf && t.txLen == s.txLen && t.msgPtr == s.msgPtr && t.msgLen == s.msgLen
    && t.flagRom == s.flagRom && t.config == s.config && t.ioByte == s.ioByte && t.version == s.version
  }

  lemma SameReads(s: State, t: State, i: nat, n: nat)
    requires SameOutgoing(s, t)
    ensures ReadBytes(t, i, n) == ReadBytes(s, i, n)
  {
    forall k | 0 <= k < n ensures ReadBytes(t, i, n)[k] == ReadBytes(s, i, n)[k] {
    }
  }

  lemma SameQueue(s: State, t: State)
    requires Sizes(s) && Sizes(t) && SameOutgoing(s, t)
    requires t.pc == s.pc || (!t.pc.Build? && !s.pc.Build?)
    ensures Queue(t) == Queue(s) && Readable(t) == Readable(s)
  {
    hide Packets, DataPacket, CrcLow, CrcHigh, Received, Sendable, Points, ReadBytes, Toggle, IsHandshake;
    SameReads(s, t, 0, s.msgLen);
    match s.pc
    case Build(Copy(wantLen, i)) =>
      SameReads(s, t, i, wantLen - i);
      SameReads(s, t, wantLen, s.msgLen);
    case _ =>
  }

  lemma StartQueue(s: State, t: State)
    requires Sizes(s) && !s.pc.Build? && IsHandshake(s.txLen)
    requires s.msgLen != NO_MSG && t == s.(pc := Build(BuildPc.Toggling))
    ensures Queue(t) == Queue(s) && Readable(t) == Readable(s)
  {
    hide Packets, DataPacket, CrcLow, CrcHigh, Points;
    ReadBytesAdvance(s, t, 0, s.msgLen);
  }

  lemma PollFrame(s: State, env: Env)
    requires InRange(s) && !s.pc.Process? && !s.pc.Build?
    ensures var t := MainStep(s, env);
            && (t.pc.Process? ==> t.pc.at.Token?)
            && SameOutgoing(s, t) && t.history == s.history.(wasReset := t.history.wasReset)
            && (t.pc.Build? ==> IsHandshake(s.txLen) && s.msgLen != NO_MSG && t == s.(pc := Build(BuildPc.Toggling)))
  {
    hide ProcessStep, BuildStep, IsHandshake, Buffers;
  }

  lemma PollConserves(s: State, env: Env)
    requires Sizes(s) && !s.pc.Process? && !s.pc.Build? && Handover(s) && Conserves(s)
    ensures var t := MainStep(s, env);
            (t.pc.Process? ==> t.pc.at.Token?) && Sizes(t) && PendingMeans(t.history) && Conserves(t)
  {
    PollKeepsSizes(s, env);
    PollFrame(s, env);
    var t := MainStep(s, env);
    hide MainStep, Sizes, Handover, Queue, Readable, Reply;
    if t.pc.Build? {
      StartQueue(s, t);
    } else {
      SameQueue(s, t);
    }
  }

  // ---- usbProcessRx ----

  lemma RequestIsSetup(s: State)
    requires Sizes(s) && Handover(s) && s.pc.Process? && s.pc.at.Setup? && !s.pc.at.rest.Limit?
    ensures s.pc.at.data == BUFSIZE + 1 - s.off
    ensures |s.history.setup| == 8 && Request(s, s.pc.at.data) == s.history.setup
  {
    var half := BUFSIZE - s.off;
    assert s.rxBuf[half..half + BUFSIZE][1..9] == s.rxBuf[half + 1..half + 9];
  }

  /** What usbProcessRx has established when it reaches a statement. */
  predicate Prepared(s: State, data: nat, at: SetupPc)
    requires |s.history.setup| == 8 && |s.txBuf| == BUFSIZE && data + 8 <= |s.rxBuf|
  {
    var rq := s.history.setup;
    && (!at.Toggling? ==> s.txBuf[0] == PID_DATA0)
    && (!at.Toggling? && !at.Abort? ==> s.txLen == PID_NAK)
    && match at
       case DriverClear => !s.flagRom && rq[0] / 32 % 4 == 0
       case DriverSwitch => !s.flagRom && rq[0] / 32 % 4 == 0 && s.txBuf[9] == 0
       case Function => !s.flagRom && rq[0] / 32 % 4 != 0
       case Limit(replyLen) =>
         && Points(s.msgPtr, s.flagRom, replyLen)
         && ReadBytes(s, 0, replyLen) == FullReply(rq, s.config, s.version, s.ioByte)
         && Request(s, data)[6..8] == rq[6..8]
       case _ => true
  }

  predicate SetupPrepared(s: State)
    requires Sizes(s) && Handover(s)
  {
    s.pc.Process? && s.pc.at.Setup? ==> Prepared(s, s.pc.at.data, s.pc.at.rest)
  }

  lemma EarlyStaysPrepared(s: State, data: nat, at: SetupPc, env: Env)
    requires InRange(s) && data + 8 <= 2 * BUFSIZE && |s.history.setup| == 8 && Prepared(s, data, at)
    requires at.Toggling? || at.Abort? || at.Flags? || at.DriverClear?
    requires Request(s, data) == s.history.setup
    ensures var t := SetupStep(s, data, at, env);
            t.pc.Process? && t.pc.at.Setup? && t.pc.at.data == data && !t.pc.at.rest.Limit?
            && t.history == s.history && |t.txBuf| == BUFSIZE && t.rxBuf == s.rxBuf
            && Prepared(t, data, t.pc.at.rest)
  {
    hide DriverSetup, FunctionSetupOf, ReadBytes, Points, StandardReply, VendorReply;
  }

  lemma DriverStaysPrepared(s: State, data: nat, env: Env)
    requires InRange(s) && data + 8 <= 2 * BUFSIZE && |s.history.setup| == 8 && Prepared(s, data, DriverSwitch)
    requires Request(s, data) == s.history.setup
    ensures var t := SetupStep(s, data, DriverSwitch, env);
            t.pc.Process? && t.pc.at.Setup? && t.pc.at.data == data && t.pc.at.rest.Limit?
            && t.history == s.history && |t.txBuf| == BUFSIZE && t.rxBuf == s.rxBuf
            && Prepared(t, data, t.pc.at.rest)
  {
    var h := DriverSetup(s, s.history.setup);
    DriverReplies(s, s.history.setup);
    var t := SetupStep(s, data, DriverSwitch, env);
    assert t == h.s.(pc := t.pc);
    hide DriverSetup, FunctionSetupOf, SetupStep, Points, StandardReply, VendorReply;
    ReadBytesAdvance(h.s, t, 0, h.len);
  }

  lemma FunctionStaysPrepared(s: State, data: nat, env: Env)
    requires InRange(s) && data + 8 <= 2 * BUFSIZE && |s.history.setup| == 8 && Prepared(s, data, SetupPc.Function)
    requires Request(s, data) == s.history.setup
    ensures var t := SetupStep(s, data, SetupPc.Function, env);
            t.pc.Process? && t.pc.at.Setup? && t.pc.at.data == data && t.pc.at.rest.Limit?
            && t.history == s.history && |t.txBuf| == BUFSIZE && |t.rxBuf| == |s.rxBuf|
            && Prepared(t, data, t.pc.at.rest)
  {
    var h := FunctionSetupOf(s, data, s.history.setup, env.lpt);
    FunctionReplies(s, data, s.history.setup, env.lpt);
    var t := SetupStep(s, data, SetupPc.Function, env);
    assert t == h.s.(pc := t.pc);
    assert Request(t, data)[6..8] == Request(s, data)[6..8];
    hide DriverSetup, FunctionSetupOf, SetupStep, Points, StandardReply, VendorReply;
    ReadBytesAdvance(h.s, t, 0, h.len);
  }

  lemma ReplyIsCut(full: seq<byte>, low: byte, high: byte)
    requires |full| < 255
    ensures AtMost(|full|, low, high) <= |full|
    ensures full[..AtMost(|full|, low, high)] == if WordOf(low, high) < |full| then full[..WordOf(low, high)] else full
  {
  }

  lemma PointsLess(p: MsgPtr, flagRom: bool, n: nat, m: nat)
    requires Points(p, flagRom, n) && m <= n
    ensures Points(p, flagRom, m)
  {
  }

  lemma LimitStep(s: State, data: nat, replyLen: byte, env: Env)
    requires InRange(s) && data + 8 <= 2 * BUFSIZE && |s.history.setup| == 8
    requires replyLen != NO_MSG && Request(s, data)[6..8] == s.history.setup[6..8]
    ensures SetupStep(s, data, SetupPc.Limit(replyLen), env) ==
            s.(msgLen := AtMost(replyLen, s.history.setup[6], s.history.setup[7]), pc := RxDone,
               history := s.history.(pending := false))
  {
    var rq := s.history.setup;
    assert Request(s, data)[6..8][0] == rq[6..8][0] && Request(s, data)[6..8][1] == rq[6..8][1];
  }

  lemma ReplyIsQueued(s: State, t: State, full: seq<byte>)
    requires |s.txBuf| == BUFSIZE && s.txLen == PID_NAK && s.txBuf[0] == PID_DATA0 && |full| < 255
    requires Points(s.msgPtr, s.flagRom, |full|) && ReadBytes(s, 0, |full|) == full
    requires t == s.(msgLen := t.msgLen, pc := RxDone, history := t.history) && t.msgLen <= |full|
    ensures Readable(t) && Queue(t) == Packets(full[..t.msgLen], PID_DATA1)
  {
    hide Packets, ReadBytes, Points;
    PointsLess(s.msgPtr, s.flagRom, |full|, t.msgLen);
    ReadBytesSplit(s, 0, t.msgLen, |full|);
    ReadBytesAdvance(s, t, 0, t.msgLen);
  }

  /** The end of usbProcessRx: what is owed is now queued, and nothing of it has been sent. */
  lemma LimitConserves(s: State, data: nat, replyLen: byte, env: Env)
    requires InRange(s) && data + 8 <= 2 * BUFSIZE && |s.history.setup| == 8
    requires replyLen != NO_MSG && Prepared(s, data, SetupPc.Limit(replyLen))
    ensures var t := SetupStep(s, data, SetupPc.Limit(replyLen), env);
            t.pc == RxDone && t.txBuf == s.txBuf && t.txLen == s.txLen && t.history == s.history.(pending := false)
            && Readable(t) && Owed(t) == Queue(t)
  {
    LimitStep(s, data, replyLen, env);
    var rq := s.history.setup;
    var full := FullReply(rq, s.config, s.version, s.ioByte);
    var t := SetupStep(s, data, SetupPc.Limit(replyLen), env);
    ReplyIsCut(full, rq[6], rq[7]);
    ReplyIsQueued(s, t, full);
    hide SetupStep, Queue, Readable, FullReply, Packets, AtMost, Request, ReadBytes, Points;
  }

  lemma TokenKeeps(s: State, env: Env)
    requires Sizes(s) && Handover(s) && s.pc.Process? && !s.pc.at.Setup?
    ensures var t := ProcessStep(s, s.pc.at, env);
            && Sizes(t) && Handover(t) && t == s.(pc := t.pc) && !t.pc.Build?
            && (t.pc.Process? && t.pc.at.Setup? ==> t.pc.at.rest.Toggling?)
  {
    hide SetupStep, Kept, Buffers, Received, Sendable, IsHandshake, PendingMeans;
  }

  lemma TokenConserves(s: State, env: Env)
    requires Sizes(s) && Handover(s) && Conserves(s) && s.pc.Process? && !s.pc.at.Setup?
    ensures var t := ProcessStep(s, s.pc.at, env); Sizes(t) && Handover(t) && SetupPrepared(t) && Conserves(t)
  {
    TokenKeeps(s, env);
    var t := ProcessStep(s, s.pc.at, env);
    assert SetupPrepared(t) by { hide ProcessStep, Kept, Buffers, Received, Sendable, IsHandshake; }
    hide ProcessStep, Sizes, Handover, SetupPrepared, Queue, Readable, Reply;
    SameQueue(s, t);
  }

  lemma SetupConserves(s: State, env: Env)
    requires Sizes(s) && Handover(s) && SetupPrepared(s) && s.pc.Process? && s.pc.at.Setup?
    ensures var t := SetupStep(s, s.pc.at.data, s.pc.at.rest, env);
            Sizes(t) && Handover(t) && SetupPrepared(t) && Conserves(t)
  {
    SetupKeepsSizes(s, env);
    SetupKeepsHandover(s, env);
    var data := s.pc.at.data;
    hide SetupStep, Kept, Buffers, Received, Sendable, IsHandshake, Queue, Readable, Reply, Prepared;
    match s.pc.at.rest
    case Limit(replyLen) => LimitConserves(s, data, replyLen, env);
    case DriverSwitch => RequestIsSetup(s); DriverStaysPrepared(s, data, env);
    case Function => RequestIsSetup(s); FunctionStaysPrepared(s, data, env);
    case rest => RequestIsSetup(s); EarlyStaysPrepared(s, data, rest, env);
  }

  lemma ProcessConserves(s: State, env: Env)
    requires Sizes(s) && Handover(s) && SetupPrepared(s) && Conserves(s) && s.pc.Process?
    ensures var t := ProcessStep(s, s.pc.at, env); Sizes(t) && Handover(t) && SetupPrepared(t) && Conserves(t)
  {
    if s.pc.at.Setup? {
      SetupConserves(s, env);
    } else {
      TokenConserves(s, env);
    }
  }

  /** No step of the main loop adds, loses or changes a packet. */
  lemma MainConserves(s: State, env: Env)
    requires Sizes(s) && Handover(s) && SetupPrepared(s) && Conserves(s)
    ensures var t := MainStep(s, env); Sizes(t) && Handover(t) && SetupPrepared(t) && Conserves(t)
  {
    var t := MainStep(s, env);
    hide Sizes, Handover, Conserves, ProcessStep, BuildStep;
    match s.pc
    case Build(at) =>
      BuildConserves(s);
      BuildKeepsHandover(s);
    case Process(at) => ProcessConserves(s, env);
    case _ =>
      PollConserves(s, env);
      PollKeepsHandover(s, env);
  }
}
