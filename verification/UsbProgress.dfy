/** Everything that is owed does go out, however the interrupts strike: an IN after each completed poll is enough. */
module UsbProgress {
  import opened Bits
  import opened UsbState
  import Receive
  import opened UsbMain
  import opened UsbInterrupt
  import opened UsbReply
  import opened UsbInvariant
  import opened UsbDelivery
  import opened UsbInterleaving
  import opened UsbRuns
  import opened UsbTheorems

  // ---- A poll comes to its end ----

  /** A bound on the steps to the end of usbPoll. */
  function StepsLeft(pc: Pc): nat {
    match pc
    case Idle => 0
    case ResetAddr => 1
    case ResetNew => 2
    case ResetTest => 3
    case Build(at) => BuildStepsLeft(at)
    case TxTest => 16
    case RxDone => 17
    case Process(OutData) => 18
    case Process(Setup(_, at)) => SetupStepsLeft(at)
    case Process(Token(_, _)) => 24
    case RxArgs(_) => 25
  }

  function BuildStepsLeft(at: BuildPc): nat {
    match at
    case Publish(_) => 4
    case AppendHigh(_, _) => 5
    case AppendLow(_) => 6
    case Copy(wantLen, i) => if i < wantLen <= 8 then 6 + wantLen - i else 14
    case Toggling => 15
  }

  function SetupStepsLeft(at: SetupPc): nat {
    match at
    case Limit(_) => 18
    case DriverSwitch => 19
    case Function => 19
    case DriverClear => 20
    case Flags => 21
    case Abort => 22
    case Toggling => 23
  }

  lemma CopyStepsDown(s: State)
    requires InRange(s) && s.pc.Build? && (s.pc.tx.Copy? || s.pc.tx.Toggling?)
    ensures StepsLeft(BuildStep(s, s.pc.tx).pc) < StepsLeft(s.pc)
  {
    hide ReadByte, Toggle, Buffers;
  }

  lemma BuildStepsDown(s: State)
    requires InRange(s) && s.pc.Build?
    ensures StepsLeft(BuildStep(s, s.pc.tx).pc) < StepsLeft(s.pc)
  {
    hide ReadByte, Toggle, Buffers;
    if s.pc.tx.Copy? || s.pc.tx.Toggling? { CopyStepsDown(s); }
  }

  lemma ProcessStepsDown(s: State, env: Env)
    requires Sizes(s) && s.pc.Process?
    ensures StepsLeft(ProcessStep(s, s.pc.at, env).pc) < StepsLeft(s.pc)
  {
    hide DriverSetup, FunctionSetupOf, IsHandshake, Received, Sendable, Buffers;
  }

  lemma StepTowardsEnd(s: State, env: Env)
    requires Sizes(s) && !s.pc.Idle?
    ensures StepsLeft(MainStep(s, env).pc) < StepsLeft(s.pc)
  {
    hide ProcessStep, BuildStep, Buffers, Received, Sendable, IsHandshake, NoUserPath;
    match s.pc
    case Build(_) => BuildStepsDown(s);
    case Process(_) => ProcessStepsDown(s, env);
    case _ =>
  }

  // ---- One event ----

  /** What the main loop never touches. */
  predicate SameRequest(h: History, g: History) {
    g == h.(pending := g.pending, wasReset := g.wasReset)
  }

  lemma BuildKeepsRequest(s: State)
    requires Sizes(s) && s.pc.Build?
    ensures var t := BuildStep(s, s.pc.tx);
            && t.history == s.history && t.config == s.config && t.ioByte == s.ioByte && t.version == s.version
  {
    hide ReadByte, Toggle, IsHandshake, Received, Sendable;
  }

  lemma SetupKeepsRequest(s: State, data: nat, at: SetupPc, env: Env)
    requires InRange(s) && data + 8 <= 2 * BUFSIZE
    ensures SameRequest(s.history, SetupStep(s, data, at, env).history)
  {
    hide DriverSetup, FunctionSetupOf, Buffers, AtMost, Request;
  }

  lemma ProcessKeepsRequest(s: State, env: Env)
    requires Sizes(s) && s.pc.Process?
    ensures SameRequest(s.history, ProcessStep(s, s.pc.at, env).history)
  {
    hide SetupStep, IsHandshake, Received, Sendable, Buffers;
    if s.pc.at.Setup? { SetupKeepsRequest(s, s.pc.at.data, s.pc.at.rest, env); }
  }

  lemma MainKeepsRequest(s: State, env: Env)
    requires Sizes(s)
    ensures var t := MainStep(s, env);
            && SameRequest(s.history, t.history)
            && (!s.pc.Process? ==> t.config == s.config && t.ioByte == s.ioByte && t.version == s.version)
  {
    hide ProcessStep, BuildStep, IsHandshake, Received, Sendable, Buffers;
    match s.pc
    case Build(_) => BuildKeepsRequest(s);
    case Process(_) => ProcessKeepsRequest(s, env);
    case _ =>
  }

  /** The packet is being handled, or the buffer is free. */
  predicate Freeing(s: State) { Processing(s.pc) || s.rxLen == 0 }

  /** From `s` to `t` the buffer has not been taken, no SETUP has come, and no reset without a cause. */
  predicate Frees(s: State, t: State, reset: bool) {
    && (Freeing(s) || s.pc.Idle? ==> Freeing(t))
    && (t.history.pending ==> s.history.pending)
    && (!reset && !s.pc.ResetNew? && !s.pc.ResetAddr? ==>
          t.history.wasReset == s.history.wasReset && !t.pc.ResetNew? && !t.pc.ResetAddr?)
  }

  lemma BuildFrees(s: State, env: Env)
    requires Sizes(s) && s.pc.Build?
    ensures Frees(s, BuildStep(s, s.pc.tx), env.reset)
  {
    hide ReadByte, Toggle, IsHandshake, Buffers, Received, Sendable, NoUserPath;
  }

  lemma SetupFrees(s: State, data: nat, at: SetupPc, env: Env)
    requires InRange(s) && data + 8 <= 2 * BUFSIZE
    ensures var t := SetupStep(s, data, at, env); Processing(t.pc) && t.history.wasReset == s.history.wasReset
    ensures SetupStep(s, data, at, env).history.pending ==> s.history.pending
  {
    hide DriverSetup, FunctionSetupOf, AtMost, Buffers, Request;
  }

  lemma ProcessFrees(s: State, env: Env)
    requires InRange(s) && s.pc.Process?
    ensures Frees(s, ProcessStep(s, s.pc.at, env), env.reset)
  {
    hide SetupStep, Buffers;
    if s.pc.at.Setup? { SetupFrees(s, s.pc.at.data, s.pc.at.rest, env); }
  }

  lemma MainFrees(s: State, env: Env)
    requires Sizes(s)
    ensures Frees(s, MainStep(s, env), env.reset)
  {
    hide ProcessStep, BuildStep, IsHandshake, Buffers, Sendable, NoUserPath;
    match s.pc
    case Build(_) => BuildFrees(s, env);
    case Process(_) => ProcessFrees(s, env);
    case _ =>
  }

  lemma NoSetupInHand(s: State)
    requires Good(s) && !s.history.pending
    ensures Sizes(s) && InRange(s) && !(s.pc.Process? && s.pc.at.Setup?)
  {
    hide SetupPrepared, Conserves, Buffers;
  }

  lemma TokenKeepsReply(s: State, env: Env)
    requires Sizes(s) && s.pc.Process? && !s.pc.at.Setup?
    ensures var t := ProcessStep(s, s.pc.at, env);
            t.config == s.config && t.ioByte == s.ioByte && t.version == s.version
  {
    hide Buffers, Received, Sendable;
  }

  /** Without a SETUP in hand the main loop changes nothing that a reply is made of. */
  lemma MainKeepsOwed(s: State, env: Env)
    requires Good(s) && !s.history.pending
    ensures var t := MainStep(s, env);
            t.config == s.config && t.ioByte == s.ioByte && t.version == s.version && !t.history.pending
  {
    hide Good, Sizes, ProcessStep, BuildStep, InRange;
    NoSetupInHand(s);
    MainFrees(s, env);
    MainKeepsRequest(s, env);
    if s.pc.Process? { TokenKeepsReply(s, env); }
  }

  /** Since the first statement of a poll, with `n` packets sent by then: what can be offered is offered when the poll
      ends, unless it has already gone out. */
  predicate Offering(s: State, n: nat) {
    || Processing(s.pc) || s.pc.TxTest? || s.pc.Build?
    || !IsHandshake(s.txLen) || s.msgLen == NO_MSG || |s.history.sent| > n
  }

  lemma BuildOffers(s: State, n: nat)
    requires Sizes(s) && s.pc.Build?
    ensures Offering(BuildStep(s, s.pc.tx), n)
  {
    hide ReadByte, Toggle, Buffers, Received, Processing;
  }

  lemma ProcessOffers(s: State, env: Env, n: nat)
    requires InRange(s) && s.pc.Process?
    ensures Offering(ProcessStep(s, s.pc.at, env), n)
  {
    hide SetupStep, Buffers, IsHandshake;
    if s.pc.at.Setup? { SetupFrees(s, s.pc.at.data, s.pc.at.rest, env); }
  }

  lemma MainOffers(s: State, env: Env, n: nat)
    requires Sizes(s) && (Offering(s, n) || s.pc.Idle?)
    ensures Offering(MainStep(s, env), n)
  {
    hide ProcessStep, BuildStep, Ready, Locks, NoUserPath, IsHandshake, Buffers;
    match s.pc
    case Build(_) => BuildOffers(s, n);
    case Process(_) => ProcessOffers(s, env, n);
    case _ =>
  }

  lemma InterruptOffers(s: State, f: Frame, n: nat)
    requires Invariant(s) && ValidFrame(f) && n <= |s.history.sent|
    requires Interrupt(s, f).s.history.pending ==> s.history.pending
    ensures var t := Interrupt(s, f).s;
            && t.history.setup == s.history.setup && |t.history.sent| >= |s.history.sent|
            && t.history.pending == s.history.pending && Owed(t) == Owed(s)
            && (Offering(s, n) ==> Offering(t, n))
  {
    hide Interrupt, Store, Reply, Packets, Addressed, SetupPrepared, Conserves, Processing;
    GoodFacts(s);
    InterruptCases(s, f);
  }

  /** No event but a new SETUP takes anything back. */
  lemma EventForward(s: State, e: Event, n: nat)
    requires Invariant(s) && ValidEvent(e) && n <= |s.history.sent|
    requires Next(s, e).history.pending ==> s.history.pending
    ensures var t := Next(s, e);
            && t.history.setup == s.history.setup && |t.history.sent| >= |s.history.sent|
            && (!s.history.pending ==> Owed(t) == Owed(s))
            && (Offering(s, n) || (e.Main? && s.pc.Idle?) ==> Offering(t, n))
  {
    hide Offering, Interrupt, MainStep, Addressed, Reply, Packets;
    match e
    case Irq(f) => InterruptOffers(s, f, n);
    case Main(env) =>
      GoodFacts(s);
      MainKeepsRequest(s, env);
      if !s.history.pending { MainKeepsOwed(s, env); }
      if Offering(s, n) || s.pc.Idle? { MainOffers(s, env, n); }
  }

  // ---- Runs that go on ----

  predicate ValidEvents(events: seq<Event>) { forall e :: e in events ==> ValidEvent(e) }

  function After(s: State, events: seq<Event>): (t: State)
    requires Invariant(s) && ValidEvents(events)
    ensures Invariant(t)
    decreases |events|
  {
    hide Invariant, Next;
    if events == [] then s else After(Next(s, events[0]), events[1..])
  }

  /** It is the same to start anew and to go on. */
  lemma {:induction false} RunGoesOn(version: seq<byte>, events: seq<Event>, more: seq<Event>)
    requires ValidRun(version, events) && ValidEvents(more)
    ensures ValidRun(version, events + more)
    ensures Run(version, events + more) == After(Run(version, events), more)
    decreases |more|
  {
    hide Invariant, Next, Init;
    if more == [] {
      assert events + more == events;
    } else {
      var es := events + [more[0]];
      assert es[..|es| - 1] == events;
      assert es + more[1..] == events + more;
      RunGoesOn(version, es, more[1..]);
    }
  }

  /** No SETUP is accepted. */
  predicate NoSetup(s: State, events: seq<Event>)
    requires Invariant(s) && ValidEvents(events)
    decreases |events|
  {
    hide Invariant, Next;
    events == [] ||
    ((Next(s, events[0]).history.pending ==> s.history.pending) && NoSetup(Next(s, events[0]), events[1..]))
  }

  /** The first statement of usbPoll is executed. */
  predicate Polled(s: State, events: seq<Event>)
    requires Invariant(s) && ValidEvents(events)
    decreases |events|
  {
    hide Invariant, Next;
    events != [] && ((events[0].Main? && s.pc.Idle?) || Polled(Next(s, events[0]), events[1..]))
  }

  lemma {:induction false} RunForward(s: State, events: seq<Event>, n: nat)
    requires Invariant(s) && ValidEvents(events) && NoSetup(s, events) && n <= |s.history.sent|
    ensures var t := After(s, events);
            && t.history.setup == s.history.setup && |t.history.sent| >= |s.history.sent|
            && (!s.history.pending ==> Owed(t) == Owed(s) && !t.history.pending)
            && (Offering(s, n) || Polled(s, events) ==> Offering(t, n))
    decreases |events|
  {
    hide Offering, Owed, Invariant, Next;
    if events != [] {
      EventForward(s, events[0], n);
      RunForward(Next(s, events[0]), events[1..], n);
    }
  }

  // ---- IN tokens ----

  /** The frame of an IN token for the device's present address. */
  function InToken(devAddr: byte): Frame { Receive.Packet([PID_IN, devAddr / 2, 0]) }

  lemma InReachesHandler(s: State)
    requires Ready(s) && s.devAddr % 2 == 0
    ensures var f := InToken(s.devAddr); ValidFrame(f) && Interrupt(s, f) == HandleIn(Store(s, f.bytes))
  {
    hide HandleIn, Store, HandleData, Received, Sendable, IsHandshake;
    var f := InToken(s.devAddr);
    var t := Store(s, f.bytes);
    StoreIsQuiet(s, f.bytes);
    StoredHead(t.rxBuf, s.off, f.bytes);
  }

  /** The answer to an IN token when the main loop keeps up: the next packet that is owed, NAK when there is none. */
  lemma InDelivers(s: State)
    requires Invariant(s) && s.rxLen == 0 && s.pc.Idle? && (!IsHandshake(s.txLen) || s.msgLen == NO_MSG)
    ensures var f := InToken(s.devAddr); ValidFrame(f)
    ensures var r := Interrupt(s, InToken(s.devAddr)); var sent := s.history.sent;
            && r.answer == (if |sent| < |Owed(s)| then Data(Owed(s)[|sent|]) else Handshake(PID_NAK))
            && r.s.history == s.history.(sent := if |sent| < |Owed(s)| then sent + [Owed(s)[|sent|]] else sent)
            && r.s.rxLen == 0 && r.s.pc.Idle? && Owed(r.s) == Owed(s)
  {
    var f := InToken(s.devAddr);
    InReachesHandler(s);
    StoreIsQuiet(s, f.bytes);
    var u := Store(s, f.bytes);
    hide Store, Interrupt, Reply, Packets;
    if !IsHandshake(s.txLen) {
      DataFollowsQueue(s, u, Interrupt(s, f));
    }
  }

  lemma InTakesNothing(s: State)
    requires Invariant(s)
    ensures ValidFrame(InToken(s.devAddr))
    ensures Interrupt(s, InToken(s.devAddr)).s.history.pending == s.history.pending
    ensures var t := Interrupt(s, InToken(s.devAddr)).s; t.history == s.history.(sent := t.history.sent)
  {
    hide Interrupt, Store, Invariant;
    InvariantReady(s);
    InterruptCases(s, InToken(s.devAddr));
  }

  lemma InvariantReady(s: State)
    requires Invariant(s)
    ensures Ready(s) && s.devAddr % 2 == 0
    ensures s.rxLen == 0 ==> !s.history.pending
  {
    hide SetupPrepared, Conserves, Handover, IsSetAddress, ShiftLeft;
    GoodFacts(s);
  }

  // ---- Cycles ----

  /** A stretch of a run in which usbPoll is begun and the last one begun has come to its end, with the receive buffer
      free. Interrupts may strike anywhere, with IN tokens or other packets, and any number of polls may be made. */
  predicate Cycle(s: State, events: seq<Event>)
    requires Invariant(s) && ValidEvents(events)
  {
    NoSetup(s, events) && Polled(s, events) && After(s, events).pc.Idle? && After(s, events).rxLen == 0
  }

  /** And then an IN token. */
  function AfterIn(s: State, events: seq<Event>): (t: State)
    requires Invariant(s) && ValidEvents(events)
    ensures Invariant(t)
  {
    var u := After(s, events);
    InTakesNothing(u);
    Next(u, Irq(InToken(u.devAddr)))
  }

  lemma CycleDelivers(s: State, events: seq<Event>)
    requires Invariant(s) && ValidEvents(events) && Cycle(s, events)
    ensures var t := AfterIn(s, events);
            && t.history.setup == s.history.setup && !t.history.pending
            && (!s.history.pending ==> Owed(t) == Owed(s))
            && |s.history.sent| <= |t.history.sent| <= |Owed(t)|
            && |t.history.sent| >= Min(|s.history.sent| + 1, |Owed(t)|)
  {
    hide Invariant, Owed, InToken, NoSetup, Polled, After, Interrupt;
    var n, u := |s.history.sent|, After(s, events);
    RunForward(s, events, n);
    InvariantReady(u);
    InTakesNothing(u);
    EventForward(u, Irq(InToken(u.devAddr)), n);
    var t := AfterIn(s, events);
    SentFits(t);
    if !IsHandshake(u.txLen) || u.msgLen == NO_MSG { InDelivers(u); }
  }

  lemma SentFits(s: State)
    requires Invariant(s) && !s.history.pending
    ensures |s.history.sent| <= |Owed(s)| && (|s.history.sent| == |Owed(s)| ==> s.history.sent == Owed(s))
  {
    hide Sizes, Handover, SetupPrepared, Queue, Readable, Reply, Packets;
  }

  predicate Cycles(s: State, cycles: seq<seq<Event>>)
    requires Invariant(s)
    decreases |cycles|
  {
    hide Invariant, AfterIn, Cycle;
    cycles == [] || (ValidEvents(cycles[0]) && Cycle(s, cycles[0]) && Cycles(AfterIn(s, cycles[0]), cycles[1..]))
  }

  function AfterCycles(s: State, cycles: seq<seq<Event>>): (t: State)
    requires Invariant(s) && Cycles(s, cycles)
    ensures Invariant(t)
    decreases |cycles|
  {
    hide Invariant, AfterIn, Cycle;
    if cycles == [] then s else AfterCycles(AfterIn(s, cycles[0]), cycles[1..])
  }

  lemma {:induction false} CyclesDeliver(s: State, cycles: seq<seq<Event>>)
    requires Invariant(s) && Cycles(s, cycles) && !s.history.pending
    ensures var t := AfterCycles(s, cycles);
            && t.history.setup == s.history.setup && !t.history.pending && Owed(t) == Owed(s)
            && |t.history.sent| >= Min(|s.history.sent| + |cycles|, |Owed(s)|)
    decreases |cycles|
  {
    hide Invariant, AfterIn, Cycle, Owed;
    SentFits(s);
    if cycles != [] {
      CycleDelivers(s, cycles[0]);
      CyclesDeliver(AfterIn(s, cycles[0]), cycles[1..]);
    }
  }

  lemma AllSent(s: State)
    requires Invariant(s) && !s.history.pending && |s.history.sent| >= |Owed(s)| && |s.history.setup| == 8
    ensures s.history.sent == Owed(s)
    ensures Payloads(s.history.sent) == Reply(s.history.setup, s.config, s.version, s.ioByte)
  {
    hide Invariant, Reply, Packets, Payloads;
    SentFits(s);
    PacketsCarryMessage(Reply(s.history.setup, s.config, s.version, s.ioByte), PID_DATA1);
  }

  /** No reply is long: its packets are at most 32. */
  lemma FewOwed(s: State)
    requires Invariant(s)
    ensures |Owed(s)| <= 32
  {
    hide Addressed, Handover, SetupPrepared, Conserves, Packets;
    if |s.history.setup| == 8 {
      PacketCount(Reply(s.history.setup, s.config, s.version, s.ioByte), PID_DATA1);
    }
  }

  /** Exact delivery from every state and in every run without a new SETUP: when as many cycles have passed as packets
      are owed, the packets sent are exactly those owed, and their contents are exactly the reply. */
  lemma WholeReplyDelivered(s: State, cycles: seq<seq<Event>>)
    requires Invariant(s) && |s.history.setup| == 8 && Cycles(s, cycles)
    requires cycles != [] && |cycles| >= |Owed(AfterIn(s, cycles[0]))|
    ensures var t := AfterCycles(s, cycles);
            && t.history.setup == s.history.setup && t.history.sent == Owed(t)
            && Payloads(t.history.sent) == Reply(s.history.setup, t.config, t.version, t.ioByte)
  {
    hide Invariant, AfterIn, Cycle, Owed, Payloads, Reply;
    var u, rest := AfterIn(s, cycles[0]), cycles[1..];
    CycleDelivers(s, cycles[0]);
    CyclesDeliver(u, rest);
    AllSent(AfterCycles(u, rest));
  }

  // ---- Such cycles exist ----

  lemma {:induction false} AfterBoth(s: State, a: seq<Event>, b: seq<Event>)
    requires Invariant(s) && ValidEvents(a) && ValidEvents(b)
    ensures After(s, a + b) == After(After(s, a), b)
    ensures NoSetup(s, a + b) <==> NoSetup(s, a) && NoSetup(After(s, a), b)
    ensures Polled(s, a + b) <==> Polled(s, a) || Polled(After(s, a), b)
    decreases |a|
  {
    hide Invariant, Next;
    if a == [] {
      assert a + b == b;
    } else {
      assert (a + b)[0] == a[0] && (a + b)[1..] == a[1..] + b;
      AfterBoth(Next(s, a[0]), a[1..], b);
    }
  }

  /** The rest of usbPoll without an interrupt. */
  lemma {:induction false} Finish(s: State, env: Env) returns (events: seq<Event>)
    requires Invariant(s)
    ensures ValidEvents(events) && NoSetup(s, events) && After(s, events).pc.Idle?
    ensures Freeing(s) ==> After(s, events).rxLen == 0
    ensures After(s, events).history.sent == s.history.sent
    ensures !env.reset && !s.pc.ResetNew? && !s.pc.ResetAddr? ==>
              var t := After(s, events).history; SameRequest(s.history, t) && t.wasReset == s.history.wasReset
    decreases StepsLeft(s.pc)
  {
    hide Good, Addressed, MainStep, IsHandshake;
    if s.pc.Idle? {
      events := [];
    } else {
      GoodFacts(s);
      StepTowardsEnd(s, env);
      MainFrees(s, env);
      MainKeepsRequest(s, env);
      var rest := Finish(Next(s, Main(env)), env);
      events := [Main(env)] + rest;
      assert events[1..] == rest;
    }
  }

  /** From every state a cycle comes about as soon as the main loop is left alone for two polls. */
  lemma CycleExists(s: State, env: Env) returns (events: seq<Event>)
    requires Invariant(s)
    ensures ValidEvents(events) && Cycle(s, events)
    ensures !env.reset && !s.pc.ResetNew? && !s.pc.ResetAddr? ==>
              var t := After(s, events).history;
              SameRequest(s.history, t) && t.sent == s.history.sent && t.wasReset == s.history.wasReset
  {
    hide Good, Addressed, MainStep, IsHandshake, Polled, NoSetup, After;
    var a := Finish(s, env);
    var u := After(s, a);
    var v := Next(u, Main(env));
    GoodFacts(u);
    MainFrees(u, env);
    MainKeepsRequest(u, env);
    var b := Finish(v, env);
    OneMain(u, env);
    AfterBoth(u, [Main(env)], b);
    AfterBoth(s, a, [Main(env)] + b);
    events := a + ([Main(env)] + b);
  }

  lemma OneMain(u: State, env: Env)
    requires Invariant(u)
    ensures ValidEvents([Main(env)]) && After(u, [Main(env)]) == Next(u, Main(env))
    ensures Polled(u, [Main(env)]) <==> u.pc.Idle?
    ensures NoSetup(u, [Main(env)]) <==> (Next(u, Main(env)).history.pending ==> u.history.pending)
  {
    hide Invariant, Next;
    assert [Main(env)][1..] == [];
  }

  // ---- From the host's side ----

  function SetupToken(devAddr: byte): Frame { Receive.Packet([PID_SETUP, devAddr / 2, 0]) }

  function SetupData(rq: seq<byte>, crc: seq<byte>): Frame { Receive.Packet([PID_DATA0] + rq + crc) }

  lemma TokenIsTaken(s: State)
    requires Ready(s) && s.devAddr % 2 == 0
    ensures var f := SetupToken(s.devAddr); var r := Interrupt(s, f);
            ValidFrame(f) && Quiet(s, r.s) && r.s.curTok == PID_SETUP && r.answer == Silence
  {
    hide HandleIn, HandleData, Store, Received, Sendable;
    var f := SetupToken(s.devAddr);
    var t := Store(s, f.bytes);
    StoreIsQuiet(s, f.bytes);
    StoredHead(t.rxBuf, s.off, f.bytes);
  }

  lemma DataIsTaken(s: State, rq: seq<byte>, crc: seq<byte>)
    requires Ready(s) && s.rxLen == 0 && s.curTok == PID_SETUP && |rq| == 8 && |crc| == 2
    ensures var f := SetupData(rq, crc); var r := Interrupt(s, f); var h := r.s.history;
            && ValidFrame(f) && r.answer == Handshake(PID_ACK)
            && h.setup == rq && h.pending && h.sent == [] && r.s.pc == s.pc
            && h.oldAddr == s.devAddr && h.oldNew == s.newAddr && !h.wasReset
  {
    var f := SetupData(rq, crc);
    var t := Store(s, f.bytes);
    StoreIsQuiet(s, f.bytes);
    var stored := t.rxBuf[s.off..s.off + 11];
    assert t.rxBuf[s.off] == stored[0];
    assert stored[1..9] == rq;
    hide HandleIn, Store;
  }

  /** Whenever the receive buffer is free a SETUP for the device is accepted, whatever the main loop is doing. */
  lemma SetupIsAccepted(s: State, rq: seq<byte>, crc: seq<byte>) returns (t: State)
    requires Invariant(s) && s.rxLen == 0 && |rq| == 8 && |crc| == 2
    ensures ValidFrame(SetupToken(s.devAddr)) && ValidFrame(SetupData(rq, crc))
    ensures t == Next(Next(s, Irq(SetupToken(s.devAddr))), Irq(SetupData(rq, crc)))
    ensures Invariant(t) && t.pc == s.pc && t.history.setup == rq && t.history.pending && t.history.sent == []
    ensures t.history.oldAddr == s.devAddr && t.history.oldNew == s.newAddr && !t.history.wasReset
  {
    hide SetupToken, SetupData, Interrupt, Good, Addressed, Ready;
    InvariantReady(s);
    TokenIsTaken(s);
    var u := Next(s, Irq(SetupToken(s.devAddr)));
    InvariantReady(u);
    DataIsTaken(u, rq, crc);
    t := Next(u, Irq(SetupData(rq, crc)));
  }

  /** A whole control transfer: a SETUP, and then 32 or more cycles deliver the reply to the request, from every state
      in which the receive buffer is free. */
  lemma ControlTransfer(s: State, rq: seq<byte>, crc: seq<byte>, cycles: seq<seq<Event>>) returns (u: State, t: State)
    requires Invariant(s) && s.rxLen == 0 && |rq| == 8 && |crc| == 2 && |cycles| >= 32
    ensures ValidFrame(SetupToken(s.devAddr)) && ValidFrame(SetupData(rq, crc))
    ensures u == Next(Next(s, Irq(SetupToken(s.devAddr))), Irq(SetupData(rq, crc)))
    ensures Cycles(u, cycles) ==>
              && t == AfterCycles(u, cycles) && t.history.setup == rq && t.history.sent == Owed(t)
              && Payloads(t.history.sent) == Reply(rq, t.config, t.version, t.ioByte)
  {
    hide Invariant, Reply, Payloads, AfterIn, Cycle, Owed, Next, SetupToken, SetupData;
    u := SetupIsAccepted(s, rq, crc);
    t := u;
    if Cycles(u, cycles) {
      FewOwed(AfterIn(u, cycles[0]));
      WholeReplyDelivered(u, cycles);
      t := AfterCycles(u, cycles);
    }
  }

  // ---- A SET_ADDRESS without its status stage ----

  const SET_ADDRESS_5: seq<byte> := [0, 5, 5, 0, 0, 0, 0, 0]
  const GET_CONFIGURATION: seq<byte> := [0x80, 8, 0, 0, 0, 0, 1, 0]

  function SetupEvents(s: State, rq: seq<byte>, crc: seq<byte>): seq<Event> {
    [Irq(SetupToken(s.devAddr)), Irq(SetupData(rq, crc))]
  }

  lemma TwoEvents(s: State, rq: seq<byte>, crc: seq<byte>)
    requires Invariant(s) && ValidFrame(SetupToken(s.devAddr)) && ValidFrame(SetupData(rq, crc))
    ensures ValidEvents(SetupEvents(s, rq, crc))
    ensures After(s, SetupEvents(s, rq, crc)) == Next(Next(s, Irq(SetupToken(s.devAddr))), Irq(SetupData(rq, crc)))
  {
    hide Invariant, Next, SetupToken, SetupData;
    var a, b := Irq(SetupToken(s.devAddr)), Irq(SetupData(rq, crc));
    assert [a, b][1..] == [b] && [b][1..] == [];
    assert After(Next(s, a), [b]) == Next(Next(s, a), b);
  }

  lemma AddressOf(s: State)
    requires Invariant(s) && !s.history.wasReset && !s.history.pending
    ensures s.history.setup == SET_ADDRESS_5 && s.history.sent == [] ==>
              s.newAddr == 5 && s.devAddr == s.history.oldAddr
    ensures s.history.setup == GET_CONFIGURATION && s.history.sent != [] ==> s.devAddr == ShiftLeft(s.history.oldNew)
  {
    hide Good, ShiftLeft;
  }

  lemma SomethingOwed(s: State)
    requires |s.history.setup| == 8
    ensures |Owed(s)| >= 1
  {
    hide Packets, Reply;
    PacketCount(Reply(s.history.setup, s.config, s.version, s.ioByte), PID_DATA1);
  }

  /** SETUP, and a poll and an IN token for each of its cycles: the events of one request. */
  lemma Requested(s: State, rq: seq<byte>, crc: seq<byte>) returns (events: seq<Event>)
    requires Invariant(s) && s.rxLen == 0 && s.pc.Idle? && |rq| == 8 && |crc| == 2
    ensures ValidEvents(events)
    ensures var t := After(s, events); var h := t.history;
            && t.rxLen == 0 && t.pc.Idle? && h.setup == rq && h.sent == [] && !h.pending && !h.wasReset
            && h.oldAddr == s.devAddr && h.oldNew == s.newAddr
            && (!IsHandshake(t.txLen) || t.msgLen == NO_MSG)
  {
    hide Invariant, Next, SetupToken, SetupData, After, NoSetup, Polled, IsHandshake;
    var u := SetupIsAccepted(s, rq, crc);
    TwoEvents(s, rq, crc);
    var a := CycleExists(u, Env(false, 0));
    AfterBoth(s, SetupEvents(s, rq, crc), a);
    events := SetupEvents(s, rq, crc) + a;
    RunForward(u, a, 0);
    InvariantReady(After(u, a));
  }

  lemma InAfter(s: State)
    requires Invariant(s) && s.rxLen == 0 && s.pc.Idle? && (!IsHandshake(s.txLen) || s.msgLen == NO_MSG)
    requires |s.history.setup| == 8 && s.history.sent == []
    ensures ValidEvents([Irq(InToken(s.devAddr))])
    ensures var t := After(s, [Irq(InToken(s.devAddr))]).history; |t.sent| == 1 && t == s.history.(sent := t.sent)
  {
    hide Invariant, InToken, Owed, IsHandshake, Interrupt;
    InDelivers(s);
    SomethingOwed(s);
    InTakesNothing(s);
    assert [Irq(InToken(s.devAddr))][1..] == [];
  }

  /** A run in which another request moves the address: the host sends SET_ADDRESS 5 but never asks for the status
      packet, and then GET_CONFIGURATION; with its first packet the device answers at address 5 only. */
  lemma SetAddressLeftOpen(version: seq<byte>, crc: seq<byte>) returns (events: seq<Event>)
    requires |version| == 8 && |crc| == 2
    ensures ValidRun(version, events)
    ensures var s := Run(version, events); var h := s.history;
            && h.setup == GET_CONFIGURATION && !IsSetAddress(h.setup) && !h.wasReset && |h.sent| == 1
            && h.oldAddr == 0 && ShiftLeft(h.oldNew) != h.oldAddr && s.devAddr == 10
  {
    hide Invariant, After, Next, InToken, IsHandshake;
    InitIsGood(version);
    var s0 := Init(version);
    var a := Requested(s0, SET_ADDRESS_5, crc);
    var s1 := After(s0, a);
    AddressOf(s1);
    var b := Requested(s1, GET_CONFIGURATION, crc);
    var s2 := After(s1, b);
    InAfter(s2);
    var c := [Irq(InToken(s2.devAddr))];
    AddressOf(After(s2, c));
    AfterBoth(s0, a, b);
    AfterBoth(s0, a + b, c);
    events := a + b + c;
    RunGoesOn(version, [], events);
    assert [] + events == events;
  }
}
