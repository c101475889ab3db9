/** Runs: any interleaving of main-loop steps and packet interrupts, from start-up. */
module UsbRuns {
  import opened Bits
  import opened UsbState
  import opened UsbMain
  import opened UsbInterrupt
  import opened UsbReply
  import opened UsbSetup
  import opened UsbInvariant
  import opened UsbDelivery
  import opened UsbInterleaving

  // ---- The device address ----

  predicate IsSetAddress(setup: seq<byte>) { |setup| == 8 && setup[0] / 32 % 4 == 0 && setup[1] == 5 }

  /** The address is the old one until the first packet for the request has gone out, and then the one that was
      last asked for. */
  predicate AddressFollows(devAddr: byte, newAddr: byte, h: History, atLimit: bool) {
    && devAddr % 2 == 0
    && (h.setup != [] && !h.wasReset ==>
          && (h.sent == [] ==> devAddr == h.oldAddr)
          && (h.sent != [] ==> devAddr == ShiftLeft(newAddr))
          && (IsSetAddress(h.setup) && (!h.pending || atLimit) ==> newAddr == h.setup[2])
          && (!IsSetAddress(h.setup) ==> newAddr == h.oldNew))
  }

  predicate Addressed(s: State) { AddressFollows(s.devAddr, s.newAddr, s.history, AtLimit(s.pc)) }

  lemma PollKeepsAddress(s: State, env: Env)
    requires InRange(s) && Addressed(s) && !s.pc.Process? && !s.pc.Build?
    ensures Addressed(MainStep(s, env))
  {
    hide ProcessStep, BuildStep, Buffers, IsHandshake, IsSetAddress, ShiftLeft;
  }

  lemma BuildKeepsAddress(s: State)
    requires Sizes(s) && Addressed(s) && s.pc.Build?
    ensures Addressed(BuildStep(s, s.pc.tx))
  {
    hide Buffers, IsHandshake, Received, IsSetAddress, ShiftLeft, AddressFollows, ReadByte, Toggle;
  }

  lemma SetupKeepsAddress(s: State, env: Env)
    requires Sizes(s) && Handover(s) && SetupPrepared(s) && Addressed(s) && s.pc.Process? && s.pc.at.Setup?
    ensures Addressed(SetupStep(s, s.pc.at.data, s.pc.at.rest, env))
  {
    var rest := s.pc.at.rest;
    if !rest.Limit? { RequestIsSetup(s); }
    hide Buffers, Kept, Handles, IsHandshake, Received, ShiftLeft, Points, FullReply, DriverDescriptor, FunctionSetupOf;
    var rq := s.history.setup;
  }

  lemma MainKeepsAddress(s: State, env: Env)
    requires Good(s) && Addressed(s)
    ensures Addressed(MainStep(s, env))
  {
    hide AddressFollows, SetupStep, BuildStep, Sizes, Handover, SetupPrepared, Conserves;
    GoodFacts(s);
    match s.pc
    case Build(_) => BuildKeepsAddress(s);
    case Process(Setup(data, rest)) => SetupKeepsAddress(s, env);
    case Process(_) => TokenKeeps(s, env);
    case _ => PollKeepsAddress(s, env);
  }

  lemma AcceptKeepsAddress(s: State, cnt: byte)
    requires Ready(s) && Addressed(s) && s.rxLen == 0 && 4 <= cnt <= BUFSIZE && !s.pc.Process?
    ensures Addressed(Accept(s, cnt))
  {
    hide Buffers, Received, Sendable, IsHandshake, ShiftLeft, IsSetAddress;
  }

  lemma DataMovesAddress(devAddr: byte, newAddr: byte, h: History, packet: seq<byte>)
    requires AddressFollows(devAddr, newAddr, h, false) && !h.pending
    ensures AddressFollows(ShiftLeft(newAddr), newAddr, h.(sent := h.sent + [packet]), false)
  {
    hide IsSetAddress;
  }

  lemma SendKeepsAddress(s: State)
    requires Sizes(s) && Handover(s) && Addressed(s) && s.rxLen == 0 && !IsHandshake(s.txLen)
    ensures Addressed(SendTxBuf(s.(txLen := PID_NAK), s.txLen).s)
  {
    SendKeepsHandover(s);
    DataMovesAddress(s.devAddr, s.newAddr, s.history, s.txBuf[..s.txLen - 1]);
    hide Sizes, Handover, SendTxBuf, IsHandshake, AddressFollows;
  }

  lemma InterruptKeepsAddress(s: State, f: Frame)
    requires Good(s) && Addressed(s) && ValidFrame(f)
    ensures Addressed(Interrupt(s, f).s)
  {
    hide Store, Interrupt, Good, Accept, AddressFollows, Sizes, Handover;
    GoodFacts(s);
    InterruptCases(s, f);
    var u, r := Store(s, f.bytes), Interrupt(s, f);
    QuietKeeps(s, u);
    GoodFacts(u);
    if Quiet(s, r.s) && !r.answer.Data? {
    } else if r.answer.Data? {
      SendKeepsAddress(u);
    } else {
      AcceptKeepsAddress(u, |f.bytes|);
    }
  }

  // ---- Runs ----

  predicate Invariant(s: State) { Good(s) && Addressed(s) }

  /** Either the main loop moves or a packet arrives. */
  datatype Event = Main(env: Env) | Irq(frame: Frame)

  predicate ValidEvent(e: Event) { e.Irq? ==> ValidFrame(e.frame) }

  function Next(s: State, e: Event): (t: State)
    requires Invariant(s) && ValidEvent(e)
    ensures Invariant(t)
  {
    match e
    case Main(env) =>
      MainKeeps(s, env);
      MainKeepsAddress(s, env);
      MainStep(s, env)
    case Irq(frame) =>
      InterruptKeeps(s, frame);
      InterruptKeepsAddress(s, frame);
      Interrupt(s, frame).s
  }

  lemma InitIsGood(version: seq<byte>)
    requires |version| == 8
    ensures Invariant(Init(version))
  {
  }

  predicate ValidRun(version: seq<byte>, events: seq<Event>) {
    |version| == 8 && forall e :: e in events ==> ValidEvent(e)
  }

  /** The state after start-up and these events. */
  function Run(version: seq<byte>, events: seq<Event>): (s: State)
    requires ValidRun(version, events)
    ensures Invariant(s)
  {
    if events == [] then InitIsGood(version); Init(version)
    else Next(Run(version, events[..|events| - 1]), events[|events| - 1])
  }
}
