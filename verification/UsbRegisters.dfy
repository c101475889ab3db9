/** What a reply says about the printer port and the configuration: the byte that the register held when the request was
    handled, and the last configuration that was set. */
module UsbRegisters {
  import opened Bits
  import opened Options
  import opened UsbState
  import opened UsbMain
  import opened UsbInterrupt
  import opened UsbReply
  import opened UsbSetup
  import opened UsbInvariant
  import opened UsbDelivery
  import opened UsbInterleaving
  import opened UsbRuns
  import opened UsbProgress

  /** GET_REG: a vendor request to the device. */
  predicate IsGetReg(setup: seq<byte>) { |setup| == 8 && setup[0] % 128 == 0x40 && setup[1] == 10 }

  /** The register is named by wValue, low byte first; there are five. */
  predicate NamesRegister(setup: seq<byte>)
    requires |setup| == 8
  {
    setup[3] == 0 && setup[2] <= 4
  }

  /** SET_CONFIGURATION and GET_CONFIGURATION: USB 2.0, section 9.4. */
  predicate IsSetConfiguration(setup: seq<byte>) { |setup| == 8 && setup[0] / 32 % 4 == 0 && setup[1] == 9 }

  predicate IsGetConfiguration(setup: seq<byte>) { |setup| == 8 && setup[0] / 32 % 4 == 0 && setup[1] == 8 }

  // ---- Looking back over a run ----

  /** The value of the last SET_CONFIGURATION handled, and what the surroundings held in a printer-port register when
      the last accepted SETUP was handled, if it was, by usbFunctionSetup; and the version that the device started
      with. */
  datatype Record = Record(config: byte, register: Option<byte>, version: seq<byte>)

  predicate AtHandler(pc: Pc, at: SetupPc) { pc.Process? && pc.at.Setup? && pc.at.rest == at }

  function Recorded(s: State, e: Event, t: State, k: Record): Record {
    match e
    case Main(env) =>
      if AtHandler(s.pc, DriverSwitch) && IsSetConfiguration(s.history.setup) then k.(config := s.history.setup[2])
      else if AtHandler(s.pc, SetupPc.Function) then k.(register := Some(env.lpt))
      else k
    case Irq(_) => if t.history.pending && !s.history.pending then k.(register := None) else k
  }

  function RecordOf(version: seq<byte>, events: seq<Event>): Record
    requires ValidRun(version, events)
  {
    hide Next, Invariant;
    if events == [] then Record(0, None, version)
    else
      var before := events[..|events| - 1];
      Recorded(Run(version, before), events[|events| - 1], Run(version, events), RecordOf(version, before))
  }

  predicate Agrees(s: State, k: Record) {
    && s.config == k.config && s.version == k.version
    && (IsGetReg(s.history.setup) && (!s.history.pending || AtLimit(s.pc)) ==>
          k.register.Some? && s.ioByte == if NamesRegister(s.history.setup) then k.register.value else 0)
  }

  // ---- The handlers ----

  lemma DriverAgrees(s: State, data: nat, env: Env, k: Record)
    requires InRange(s) && data + 8 <= 2 * BUFSIZE && Agrees(s, k) && s.pc == Process(Setup(data, DriverSwitch))
    requires |s.history.setup| == 8 && Request(s, data) == s.history.setup && s.history.setup[0] / 32 % 4 == 0
    ensures var t := SetupStep(s, data, DriverSwitch, env); Agrees(t, Recorded(s, Main(env), t, k))
  {
    hide DescriptorFor, Buffers, Request, FunctionSetupOf;
  }

  lemma FunctionAgrees(s: State, data: nat, env: Env, k: Record)
    requires InRange(s) && data + 8 <= 2 * BUFSIZE && Agrees(s, k) && s.pc == Process(Setup(data, SetupPc.Function))
    requires |s.history.setup| == 8 && Request(s, data) == s.history.setup
    ensures var t := SetupStep(s, data, SetupPc.Function, env); Agrees(t, Recorded(s, Main(env), t, k))
  {
    hide DriverSetup, Buffers, Request;
  }

  lemma OtherHandlersAgree(s: State, data: nat, rest: SetupPc, env: Env, k: Record)
    requires InRange(s) && data + 8 <= 2 * BUFSIZE && Agrees(s, k) && s.pc == Process(Setup(data, rest))
    requires !rest.DriverSwitch? && !rest.Function? && s.history.pending
    ensures var t := SetupStep(s, data, rest, env); Agrees(t, Recorded(s, Main(env), t, k))
  {
    hide DriverSetup, FunctionSetupOf, Buffers, Request, AtMost, NamesRegister;
  }

  lemma SetupAgrees(s: State, env: Env, k: Record)
    requires Sizes(s) && Handover(s) && SetupPrepared(s) && Agrees(s, k) && s.pc.Process? && s.pc.at.Setup?
    ensures var t := SetupStep(s, s.pc.at.data, s.pc.at.rest, env); Agrees(t, Recorded(s, Main(env), t, k))
  {
    hide SetupStep, Agrees, Recorded, Buffers, Points, FullReply, Received, Sendable, Kept, PendingMeans;
    var data := s.pc.at.data;
    match s.pc.at.rest
    case DriverSwitch => RequestIsSetup(s); DriverAgrees(s, data, env, k);
    case Function => RequestIsSetup(s); FunctionAgrees(s, data, env, k);
    case _ => OtherHandlersAgree(s, data, s.pc.at.rest, env, k);
  }

  // ---- Everything else ----

  lemma BuildKeepsAll(s: State)
    requires Sizes(s) && s.pc.Build?
    ensures var t := BuildStep(s, s.pc.tx);
            t.history == s.history && t.config == s.config && t.ioByte == s.ioByte && t.version == s.version && !AtLimit(t.pc)
  {
    hide ReadByte, Toggle, IsHandshake, Received, Sendable, Buffers;
  }

  lemma TokenKeepsAll(s: State, env: Env)
    requires Sizes(s) && s.pc.Process? && !s.pc.at.Setup?
    ensures var t := ProcessStep(s, s.pc.at, env);
            t.history == s.history && t.config == s.config && t.ioByte == s.ioByte && t.version == s.version && !AtLimit(t.pc)
  {
    hide Received, Sendable, Buffers;
  }

  lemma RestKeepsAll(s: State, env: Env)
    requires Sizes(s) && !(s.pc.Process? && s.pc.at.Setup?)
    ensures var t := MainStep(s, env);
            && t.history.setup == s.history.setup && t.history.pending == s.history.pending
            && t.config == s.config && t.ioByte == s.ioByte && t.version == s.version && !AtLimit(t.pc)
  {
    hide ProcessStep, BuildStep, IsHandshake, Received, Sendable, Buffers, NoUserPath;
    match s.pc
    case Build(_) => BuildKeepsAll(s);
    case Process(_) => TokenKeepsAll(s, env);
    case _ =>
  }

  lemma MainAgrees(s: State, env: Env, k: Record)
    requires Good(s) && Agrees(s, k)
    ensures var t := MainStep(s, env); Agrees(t, Recorded(s, Main(env), t, k))
  {
    hide SetupStep, BuildStep, SetupPrepared, Conserves, Handover, Sizes, NamesRegister;
    GoodFacts(s);
    if s.pc.Process? && s.pc.at.Setup? {
      SetupAgrees(s, env, k);
    } else {
      RestKeepsAll(s, env);
    }
  }

  lemma InterruptAgrees(s: State, f: Frame, k: Record)
    requires Good(s) && ValidFrame(f) && Agrees(s, k)
    ensures var t := Interrupt(s, f).s; Agrees(t, Recorded(s, Irq(f), t, k))
  {
    hide Interrupt, Store, SetupPrepared, Conserves, Handover, Sizes, NamesRegister;
    GoodFacts(s);
    InterruptCases(s, f);
  }

  // ---- In every run ----

  lemma {:induction false} RunAgrees(version: seq<byte>, events: seq<Event>)
    requires ValidRun(version, events)
    ensures Agrees(Run(version, events), RecordOf(version, events))
    decreases |events|
  {
    hide Agrees, Recorded, MainStep, Interrupt, Good, Addressed;
    if events == [] {
      NothingRecorded(version);
    } else {
      var before, e := events[..|events| - 1], events[|events| - 1];
      assert e in events;
      RunAgrees(version, before);
      match e
      case Main(env) => MainAgrees(Run(version, before), env, RecordOf(version, before));
      case Irq(f) => InterruptAgrees(Run(version, before), f, RecordOf(version, before));
    }
  }

  lemma NothingRecorded(version: seq<byte>)
    ensures Agrees(Init(version), Record(0, None, version))
  {
  }

  lemma RepliesFrom(rq: seq<byte>, config: byte, version: seq<byte>, ioByte: byte)
    requires |rq| == 8
    ensures IsGetReg(rq) ==> FullReply(rq, config, version, ioByte) == [ioByte]
    ensures IsGetConfiguration(rq) ==> FullReply(rq, config, version, ioByte) == [config]
  {
  }

  /** The reply to GET_REG, before the cut to wLength, is one byte: what the register held when this request was handled,
      and zero if there is no such register. */
  lemma GetRegReply(version: seq<byte>, events: seq<Event>)
    requires ValidRun(version, events)
    ensures var s := Run(version, events); var k := RecordOf(version, events); var rq := s.history.setup;
            IsGetReg(rq) && !s.history.pending ==>
              k.register.Some? &&
              FullReply(rq, s.config, s.version, s.ioByte) == [if NamesRegister(rq) then k.register.value else 0]
  {
    hide Run, RecordOf, NamesRegister, FullReply;
    RunAgrees(version, events);
    var s := Run(version, events);
    if IsGetReg(s.history.setup) { RepliesFrom(s.history.setup, s.config, s.version, s.ioByte); }
  }

  lemma {:induction false} VersionIsRecorded(version: seq<byte>, events: seq<Event>)
    requires ValidRun(version, events)
    ensures RecordOf(version, events).version == version
    decreases |events|
  {
    hide Run;
    if events != [] { VersionIsRecorded(version, events[..|events| - 1]); }
  }

  /** The reply to GET_VERSION is the version that the device started with. */
  lemma GetVersionReply(version: seq<byte>, events: seq<Event>)
    requires ValidRun(version, events)
    ensures var s := Run(version, events); var rq := s.history.setup;
            |rq| == 8 && rq[0] % 128 == 0x40 && rq[1] == 7 ==>
              FullReply(rq, s.config, s.version, s.ioByte) == version
  {
    hide Run, RecordOf, StandardReply;
    RunAgrees(version, events);
    VersionIsRecorded(version, events);
  }

  /** The reply to GET_CONFIGURATION is the value of the last SET_CONFIGURATION handled, zero if there was none. */
  lemma GetConfigurationReply(version: seq<byte>, events: seq<Event>)
    requires ValidRun(version, events)
    ensures var s := Run(version, events); var rq := s.history.setup;
            IsGetConfiguration(rq) ==>
              FullReply(rq, s.config, s.version, s.ioByte) == [RecordOf(version, events).config]
  {
    hide Run, RecordOf, FullReply;
    RunAgrees(version, events);
    var s := Run(version, events);
    if IsGetConfiguration(s.history.setup) { RepliesFrom(s.history.setup, s.config, s.version, s.ioByte); }
  }
}
