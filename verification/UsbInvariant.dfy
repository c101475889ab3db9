/** What every step of the main loop and every interrupt keeps. */
module UsbInvariant {
  import opened Bits
  import opened Crc16
  import opened UsbState
  import opened UsbMain
  import opened UsbInterrupt

  // ---- Who owns which buffer ----

  /** The main loop is handling the packet that the interrupt handed over. */
  predicate Processing(pc: Pc) { pc.RxArgs? || pc.Process? || pc.RxDone? }

  predicate AtLimit(pc: Pc) { pc.Process? && pc.at.Setup? && pc.at.rest.Limit? }

  /** While the main loop handles a packet the buffer stays taken; while it builds a packet nothing is offered
      for sending. */
  predicate Locks(pc: Pc, rxLen: byte, txLen: byte) {
    && (Processing(pc) ==> rxLen != 0)
    && (pc.Build? ==> IsHandshake(txLen))
    && (AtLimit(pc) ==> pc.at.rest.replyLen != NO_MSG)
  }

  predicate NoUserPath(flagUser: bool, userCalls: nat) { !flagUser && userCalls == 0 }

  predicate Sizes(s: State) {
    InRange(s) && Ready(s) && Locks(s.pc, s.rxLen, s.txLen) && NoUserPath(s.flagUser, s.history.userCalls)
  }

  /** The accepted packet is still what lies in the half that the interrupt does not write. */
  predicate Kept(rxBuf: seq<byte>, off: nat, rxLen: byte, accepted: seq<byte>) {
    && |rxBuf| == 2 * BUFSIZE && (off == 0 || off == BUFSIZE) && rxLen <= BUFSIZE
    && rxBuf[BUFSIZE - off..BUFSIZE - off + rxLen] == accepted
  }

  /** The taken packet is a SETUP with eight data bytes. */
  predicate TakenSetup(rxLen: byte, rxTok: byte) { rxLen == BUFSIZE && rxTok == PID_SETUP }

  predicate PendingMeans(h: History) {
    && (h.setup == [] || |h.setup| == 8)
    && (h.pending ==> h.sent == [] && |h.accepted| == BUFSIZE && h.setup == h.accepted[1..9])
  }

  /** What the main loop does with a packet agrees with what the packet is. */
  predicate Handles(pc: Pc, off: nat, rxLen: byte, rxTok: byte, pending: bool) {
    match pc
    case RxArgs(len) => len == rxLen - 3
    case RxDone => !pending
    case Process(Token(arg, len)) => len == rxLen - 3 && arg == BUFSIZE + 1 - off
    case Process(OutData) => rxTok != PID_SETUP
    case Process(Setup(data, rest)) => pending && data == BUFSIZE + 1 - off
    case _ => true
  }

  predicate Handover(s: State) {
    && PendingMeans(s.history)
    && (s.rxLen != 0 && !AtLimit(s.pc) && !s.pc.RxDone? ==> Kept(s.rxBuf, s.off, s.rxLen, s.history.accepted))
    && (s.history.pending ==> TakenSetup(s.rxLen, s.rxTok))
    && (TakenSetup(s.rxLen, s.rxTok) && !s.pc.RxDone? ==> s.history.pending)
    && Handles(s.pc, s.off, s.rxLen, s.rxTok, s.history.pending)
  }

  lemma PollKeepsSizes(s: State, env: Env)
    requires Sizes(s) && !s.pc.Process? && !s.pc.Build?
    ensures Sizes(MainStep(s, env))
  {
    hide ProcessStep, BuildStep, Buffers, Sendable, NoUserPath, IsHandshake;
  }

  lemma LimitKeepsSizes(s: State, env: Env)
    requires Sizes(s) && AtLimit(s.pc)
    ensures Sizes(SetupStep(s, s.pc.at.data, s.pc.at.rest, env))
  {
    hide Buffers, IsHandshake, Received, AtMost, Request;
  }

  lemma HandlerKeepsSizes(s: State, env: Env)
    requires Sizes(s) && s.pc.Process? && s.pc.at.Setup? && !s.pc.at.rest.Limit?
    ensures Sizes(SetupStep(s, s.pc.at.data, s.pc.at.rest, env))
  {
    hide DriverSetup, FunctionSetupOf, Received, LimitReply, Request;
  }

  lemma SetupKeepsSizes(s: State, env: Env)
    requires Sizes(s) && s.pc.Process? && s.pc.at.Setup?
    ensures Sizes(SetupStep(s, s.pc.at.data, s.pc.at.rest, env))
  {
    hide Sizes, SetupStep;
    if s.pc.at.rest.Limit? {
      LimitKeepsSizes(s, env);
    } else {
      HandlerKeepsSizes(s, env);
    }
  }

  lemma BuildKeepsSizes(s: State)
    requires Sizes(s) && s.pc.Build?
    ensures Sizes(BuildStep(s, s.pc.tx))
  {
    hide CrcLow, CrcHigh, Toggle, ReadByte, Received;
  }

  /** The first statements, which read what has been received. */
  lemma ReadKeepsHandover(s: State, env: Env)
    requires Sizes(s) && Handover(s) && (s.pc.Idle? || s.pc.RxArgs?)
    ensures Handover(MainStep(s, env))
  {
    hide ProcessStep, BuildStep, Buffers, Kept, Sendable, NoUserPath, IsHandshake, PendingMeans, TakenSetup;
  }

  lemma ReleaseKeepsHandover(s: State, env: Env)
    requires Sizes(s) && Handover(s) && s.pc.RxDone?
    ensures Handover(MainStep(s, env))
  {
    hide ProcessStep, BuildStep, Buffers, Kept, Sendable, NoUserPath, IsHandshake, PendingMeans;
  }

  lemma RestKeepsHandover(s: State, env: Env)
    requires Handover(s) && InRange(s) && (s.pc.TxTest? || s.pc.ResetTest? || s.pc.ResetNew? || s.pc.ResetAddr?)
    ensures Handover(MainStep(s, env))
  {
    hide ProcessStep, BuildStep, Buffers, Kept, IsHandshake, TakenSetup;
  }

  lemma PollKeepsHandover(s: State, env: Env)
    requires Sizes(s) && Handover(s) && !s.pc.Process? && !s.pc.Build?
    ensures Handover(MainStep(s, env))
  {
    hide Handover, MainStep, Ready, Locks, NoUserPath, InRange;
    if s.pc.Idle? || s.pc.RxArgs? {
      ReadKeepsHandover(s, env);
    } else if s.pc.RxDone? {
      ReleaseKeepsHandover(s, env);
    } else {
      RestKeepsHandover(s, env);
    }
  }

  lemma LimitKeepsHandover(s: State, env: Env)
    requires Sizes(s) && Handover(s) && AtLimit(s.pc)
    ensures Handover(SetupStep(s, s.pc.at.data, s.pc.at.rest, env))
  {
    hide LimitReply, Kept, Sendable, NoUserPath, IsHandshake, TakenSetup, Received, Buffers, Locks, Request;
  }

  lemma HandlerKeepsHandover(s: State, env: Env)
    requires Sizes(s) && Handover(s) && s.pc.Process? && s.pc.at.Setup? && !s.pc.at.rest.Limit?
    ensures Handover(SetupStep(s, s.pc.at.data, s.pc.at.rest, env))
  {
    hide DriverSetup, FunctionSetupOf, Kept, Sendable, NoUserPath, IsHandshake, TakenSetup, Received, Buffers, Locks,
         LimitReply, Request, PendingMeans;
  }

  lemma SetupKeepsHandover(s: State, env: Env)
    requires Sizes(s) && Handover(s) && s.pc.Process? && s.pc.at.Setup?
    ensures Handover(SetupStep(s, s.pc.at.data, s.pc.at.rest, env))
  {
    hide Sizes, Handover, SetupStep;
    if s.pc.at.rest.Limit? {
      LimitKeepsHandover(s, env);
    } else {
      HandlerKeepsHandover(s, env);
    }
  }

  lemma BuildKeepsHandover(s: State)
    requires Sizes(s) && Handover(s) && s.pc.Build?
    ensures Handover(BuildStep(s, s.pc.tx))
  {
    hide CrcLow, CrcHigh, Toggle, ReadByte, Kept, Sendable, IsHandshake, TakenSetup, Received, PendingMeans, Buffers,
         Locks;
  }
}
