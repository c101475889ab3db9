/** The patched program does what the original one did. */
module X86Simulation {
  import opened Bits
  import opened ByteMemory
  import opened Options
  import opened X86Patch
  import opened X86Machine
  import opened X86Trampoline
  import opened X86Sweep

  // ---- The original program and the patched one ----

  /** Where a patch lies: the first `len` bytes of `code`, which stood at `site`, are displaced to the new memory at
      `base`. */
  datatype Place = Place(worker: seq<Instr>, ioFn: nat, code: seq<byte>, len: nat, site: nat, base: nat)

  predicate Placed(p: Place) {
    JMP_SIZE <= p.len <= |p.code| && p.site + p.len < TOP && p.base + 64 < TOP && p.ioFn < TOP
  }

  function NewCode(p: Place): (b: seq<byte>)
    requires Placed(p)
    ensures b != []
  {
    Trampoline(Worker(p.worker), p.ioFn, p.code, p.len, p.site)
  }

  /** The same registers, stack pointer and device history. Whatever the original program has in memory, the patched
      one has too, and the same outside the free stack and the displaced bytes. */
  predicate Alike(o: Machine, n: Machine, low: nat, p: Place) {
    && o.r == n.r && o.esp == n.esp && o.log == n.log && o.mem.Keys <= n.mem.Keys
    && forall a :: a in o.mem && !(low <= a < o.esp) && !(p.site <= a < p.site + p.len) ==> n.mem[a] == o.mem[a]
  }

  /** `o` runs the original program, whose code is untouched and which has nothing where the new memory is; `n` runs
      the patched one, whose jump and trampoline are untouched. */
  predicate Twin(o: Machine, n: Machine, low: nat, p: Place)
    requires Placed(p)
  {
    && Alike(o, n, low, p)
    && Holds(o.mem, p.site, p.code[..p.len]) && Unmapped(o.mem, p.base, |NewCode(p)|)
    && Holds(n.mem, p.site, PatchedSite(p.base, p.len)) && Holds(n.mem, p.base, NewCode(p))
  }

  /** `need` bytes of free stack, which meets neither the displaced bytes nor the new memory. */
  predicate Room(o: Machine, low: nat, need: nat, p: Place)
    requires Placed(p)
  {
    && low + need <= o.esp && Mapped(o.mem, low, o.esp - low)
    && Clear(p.site, p.len, low, o.esp) && Clear(p.base, |NewCode(p)|, low, o.esp)
  }

  /** The displaced instructions do the same from `o` as in the patched program, wherever they lie, and leave a word
      of stack for the jump back. */
  ghost predicate Displaceable(effect: Machine -> Machine, o: Machine, low: nat, p: Place)
    requires Placed(p)
  {
    && Room(effect(o), low, 4, p)
    && forall n: Machine :: Twin(o, n, low, p) ==> Twin(effect(o), effect(n), low, p)
  }

  // ---- Instructions that can be displaced ----

  /** One after the other. */
  lemma SequenceIsDisplaceable(first: Machine -> Machine, second: Machine -> Machine, o: Machine, low: nat, p: Place)
    requires Placed(p) && Displaceable(first, o, low, p) && Displaceable(second, first(o), low, p)
    ensures Displaceable((m: Machine) => second(first(m)), o, low, p)
  {
    hide Twin, Room;
  }

  /** Any computation between registers. */
  lemma RegisterCodeIsDisplaceable(f: Regs -> Regs, o: Machine, low: nat, p: Place)
    requires Placed(p) && Room(o, low, 4, p)
    ensures Displaceable((m: Machine) => m.(r := f(m.r)), o, low, p)
  {
    hide Holds, Mapped, Unmapped, NewCode, PatchedSite;
  }

  /** The original program may use these bytes: they are mapped, and neither free stack nor part of the patch. */
  predicate Usable(o: Machine, at: nat, n: nat, low: nat, p: Place)
    requires Placed(p)
  {
    && Mapped(o.mem, at, n) && Clear(at, n, low, o.esp)
    && Clear(at, n, p.site, p.site + p.len) && Clear(at, n, p.base, p.base + |NewCode(p)|)
  }

  lemma SameWord(o: Machine, n: Machine, at: nat, low: nat, p: Place)
    requires Placed(p) && Alike(o, n, low, p) && Usable(o, at, 4, low, p)
    ensures Load32(n.mem, at) == Load32(o.mem, at)
  {
    assert at in o.mem && at + 1 in o.mem && at + 2 in o.mem && at + 3 in o.mem;
  }

  /** A load whose address comes from registers. */
  lemma LoadIsDisplaceable(at: Regs -> nat, f: (Regs, nat) -> Regs, o: Machine, low: nat, p: Place)
    requires Placed(p) && Room(o, low, 4, p) && Usable(o, at(o.r), 4, low, p)
    ensures Displaceable((m: Machine) => m.(r := f(m.r, Load32(m.mem, at(m.r)))), o, low, p)
  {
    hide Load32, Usable, NewCode, PatchedSite, Holds, Mapped, Unmapped;
    var effect := (m: Machine) => m.(r := f(m.r, Load32(m.mem, at(m.r))));
    forall n: Machine | Twin(o, n, low, p) ensures Twin(effect(o), effect(n), low, p) {
      SameWord(o, n, at(o.r), low, p);
    }
  }

  lemma StoreBoth(o: Machine, n: Machine, at: nat, data: seq<byte>, low: nat, p: Place)
    requires Placed(p) && Twin(o, n, low, p) && Usable(o, at, |data|, low, p)
    ensures Twin(o.(mem := Overwrite(o.mem, at, data)), n.(mem := Overwrite(n.mem, at, data)), low, p)
  {
    hide NewCode, PatchedSite, Holds, Mapped;
    SiteLength(p);
    Untouched(o.mem, at, data, p.site, p.code[..p.len]);
    Untouched(n.mem, at, data, p.site, PatchedSite(p.base, p.len));
    Untouched(n.mem, at, data, p.base, NewCode(p));
  }

  lemma SiteLength(p: Place)
    requires Placed(p)
    ensures |PatchedSite(p.base, p.len)| == p.len
  {
  }

  lemma Untouched(mem: Memory, at: nat, data: seq<byte>, there: nat, b: seq<byte>)
    requires Holds(mem, there, b) && Clear(at, |data|, there, there + |b|)
    ensures Holds(Overwrite(mem, at, data), there, b)
  {
  }

  /** A store whose address and value come from registers. */
  lemma StoreIsDisplaceable(at: Regs -> nat, value: Regs -> nat, o: Machine, low: nat, p: Place)
    requires Placed(p) && Room(o, low, 4, p) && Usable(o, at(o.r), 4, low, p)
    ensures Displaceable((m: Machine) => m.(mem := Overwrite(m.mem, at(m.r), Le32(value(m.r)))), o, low, p)
  {
    hide NewCode, Twin, Le32;
    var effect := (m: Machine) => m.(mem := Overwrite(m.mem, at(m.r), Le32(value(m.r))));
    forall n: Machine | Twin(o, n, low, p) ensures Twin(effect(o), effect(n), low, p) {
      TwinRegisters(o, n, low, p);
      StoreBoth(o, n, at(o.r), Le32(value(o.r)), low, p);
    }
  }

  lemma TwinRegisters(o: Machine, n: Machine, low: nat, p: Place)
    requires Placed(p) && Twin(o, n, low, p)
    ensures o.r == n.r && o.esp == n.esp && o.log == n.log
  {
  }

  /** POP */
  lemma PopIsDisplaceable(f: (Regs, nat) -> Regs, o: Machine, low: nat, p: Place)
    requires Placed(p) && Room(o, low, 4, p) && Usable(o, o.esp, 4, low, p)
    ensures Displaceable((m: Machine) => m.(r := f(m.r, Load32(m.mem, m.esp)), esp := m.esp + 4), o, low, p)
  {
    hide Load32, PatchedSite, Holds, NewCode;
    var effect := (m: Machine) => m.(r := f(m.r, Load32(m.mem, m.esp)), esp := m.esp + 4);
    forall n: Machine | Twin(o, n, low, p) ensures Twin(effect(o), effect(n), low, p) {
      SameWord(o, n, o.esp, low, p);
    }
  }

  /** Both programs push the same word into their free stack. */
  lemma PushBoth(o: Machine, n: Machine, w: nat, low: nat, p: Place)
    requires Placed(p) && Twin(o, n, low, p) && Room(o, low, 8, p)
    ensures Twin(Push(o, w), Push(n, w), low, p)
  {
    hide NewCode, PatchedSite, Holds, Mapped, Unmapped, Le32;
    SiteLength(p);
    var at, data := o.esp - 4, Le32(w);
    Untouched(o.mem, at, data, p.site, p.code[..p.len]);
    Untouched(n.mem, at, data, p.site, PatchedSite(p.base, p.len));
    Untouched(n.mem, at, data, p.base, NewCode(p));
    OverwriteKeepsKeys(o.mem, at, data, p.base, |NewCode(p)|);
    PushedAlike(o, n, w, low, p);
  }

  lemma OverwriteKeepsKeys(mem: Memory, at: nat, data: seq<byte>, there: nat, n: nat)
    ensures Unmapped(mem, there, n) ==> Unmapped(Overwrite(mem, at, data), there, n)
    ensures Mapped(mem, there, n) ==> Mapped(Overwrite(mem, at, data), there, n)
  {
  }

  lemma PushedAlike(o: Machine, n: Machine, w: nat, low: nat, p: Place)
    requires Alike(o, n, low, p) && low + 8 <= o.esp
    ensures Alike(Push(o, w), Push(n, w), low, p)
  {
    hide Le32;
  }

  lemma RoomAfterPush(o: Machine, w: nat, low: nat, p: Place)
    requires Placed(p) && Room(o, low, 8, p)
    ensures Room(Push(o, w), low, 4, p)
  {
    hide NewCode, Le32;
  }

  /** PUSH */
  lemma PushIsDisplaceable(value: Regs -> nat, o: Machine, low: nat, p: Place)
    requires Placed(p) && Room(o, low, 8, p)
    ensures Displaceable((m: Machine) => if m.esp < 4 then m else Push(m, value(m.r)), o, low, p)
  {
    hide Twin, Push, NewCode, Mapped, Clear;
    var effect := (m: Machine) => if m.esp < 4 then m else Push(m, value(m.r));
    RoomAfterPush(o, value(o.r), low, p);
    forall n: Machine | Twin(o, n, low, p) ensures Twin(effect(o), effect(n), low, p) {
      TwinRegisters(o, n, low, p);
      PushBoth(o, n, value(o.r), low, p);
    }
  }

  // ---- Functions that keep to the convention ----

  /** WritePort8 with any use of `room` bytes of stack. */
  function PlainWriter(at: nat, room: nat, frame: Machine -> seq<byte>, ports: Ports): Callee {
    Callee(at, (m: Machine) => m.(
             esp := m.esp + 4, eip := Load32(m.mem, m.esp), mem := BelowStack(m, room, frame(m)),
             log := ports.write(m.log, Load32(m.mem, m.esp + 4) % 0x1_0000, LowByte(Load32(m.mem, m.esp + 8)))))
  }

  function PlainReader(at: nat, room: nat, frame: Machine -> seq<byte>, ports: Ports): Callee {
    Callee(at, (m: Machine) =>
             var port := Load32(m.mem, m.esp + 4) % 0x1_0000;
             m.(r := m.r.(eax := ports.value(m.log, port) as nat), esp := m.esp + 4, eip := Load32(m.mem, m.esp),
                mem := BelowStack(m, room, frame(m)), log := ports.read(m.log, port)))
  }

  function BelowStack(m: Machine, room: nat, frame: seq<byte>): Memory {
    if room <= m.esp && |frame| <= room then Overwrite(m.mem, m.esp - room, frame) else m.mem
  }

  lemma BelowIsAround(m: Machine, room: nat, frame: seq<byte>, low: nat, args: nat)
    requires low + room <= m.esp
    ensures Around(m.mem, BelowStack(m, room, frame), low, m.esp + 4 + args)
  {
  }

  /** A function that makes its access, uses its stack as it likes and returns keeps to the convention. */
  lemma PlainWriterReturns(at: nat, low: nat, room: nat, frame: Machine -> seq<byte>, ports: Ports)
    requires at < TOP
    ensures Writer(PlainWriter(at, room, frame, ports), low, room, ports)
  {
    hide Load32, Mapped, Around, BelowStack;
    var callee := PlainWriter(at, room, frame, ports);
    forall m | Called(m, callee, low, room, 8) ensures Returns(m, callee.run(m), low, 8) {
      BelowIsAround(m, room, frame(m), low, 8);
    }
  }

  lemma PlainReaderReturns(at: nat, low: nat, room: nat, frame: Machine -> seq<byte>, ports: Ports)
    requires at < TOP
    ensures Reader(PlainReader(at, room, frame, ports), low, room, ports)
  {
    hide Load32, Mapped, Around, BelowStack;
    var callee := PlainReader(at, room, frame, ports);
    forall m | Called(m, callee, low, room, 4) ensures Returns(m, callee.run(m), low, 4) {
      BelowIsAround(m, room, frame(m), low, 4);
    }
  }

  // ---- Execution ----

  /** The port access itself. */
  function OutAccess(m: Machine, ports: Ports): Machine {
    m.(log := ports.write(m.log, m.r.edx % 0x1_0000, LowByte(m.r.eax)))
  }

  function InAccess(m: Machine, ports: Ports): Machine {
    var port := m.r.edx % 0x1_0000;
    m.(r := m.r.(eax := SetAl(m.r.eax, ports.value(m.log, port))), log := ports.read(m.log, port))
  }

  function Outputs(ports: Ports): Machine -> Machine { m => OutAccess(m, ports) }

  function Inputs(ports: Ports): Machine -> Machine { m => InAccess(m, ports) }

  /** The program before the patch: the port access, one byte long, and the instructions behind it. */
  function RunOriginal(o: Machine, access: Machine -> Machine, effect: Machine -> Machine, p: Place): Option<Machine>
    requires Placed(p)
  {
    if !Holds(o.mem, o.eip, p.code[..p.len]) then None
    else Some(effect(access(o).(eip := o.eip + 1)).(eip := o.eip + p.len))
  }

  function JumpCode(to: nat): seq<Instr> { [PushImm(to)] + ([Ret] + []) }

  /** From the patched site through the worker and the displaced bytes to the jump back. */
  function RunPatched(m: Machine, effect: Machine -> Machine, p: Place, callee: Callee): Option<Machine>
    requires Placed(p)
  {
    match Run(JumpCode(p.base + 4), m, callee)
    case None => None
    case Some(a) =>
      match Run(p.worker, a, callee)
      case None => None
      case Some(b) =>
        var displaced := p.code[1..p.len];
        if !Holds(b.mem, b.eip, displaced) then None
        else Run(JumpCode(p.site + p.len), effect(b).(eip := b.eip + |displaced|), callee)
  }

  /** PUSH and RET go to their target and leave only a word in the free stack. */
  lemma Jumps(to: nat, m: Machine, callee: Callee, low: nat) returns (n: Machine)
    requires Holds(m.mem, m.eip, Jump(to)) && to < TOP && low + 4 <= m.esp && Mapped(m.mem, low, m.esp - low)
    requires Clear(m.eip, JMP_SIZE, low, m.esp)
    ensures Run(JumpCode(to), m, callee) == Some(n)
    ensures n == m.(eip := to, mem := n.mem) && Around(m.mem, n.mem, low, m.esp)
  {
    hide Holds, Run, Overwrite, Around, Load32, Mapped, Le32;
    AssembleNothing();
    JumpIsCode(to);
    StepIs(PushImm(to), [Ret] + [], m, callee);
    var a := Push(m.(eip := m.eip + 5), to);
    StoreAround(m.mem, a.esp, Le32(to), low, m.esp);
    CodeStays(m.mem, a.mem, low, m.esp, a.eip, Assemble([Ret] + []));
    StepIs(Ret, [], a, callee);
    LoadWord(a.mem, a.esp, to);
    n := a.(eip := to, esp := m.esp);
    RunNothing(n, callee);
  }

  lemma JumpIsCode(to: nat)
    ensures Assemble(JumpCode(to)) == Jump(to)
  {
    hide Le32;
    assert JumpCode(to)[1..] == [Ret] + [];
    assert ([Ret] + [])[1..] == [];
    assert Assemble([Ret] + []) == [0xc3];
  }

  // ---- The trampoline's parts ----

  lemma FourParts(mem: Memory, at: nat, a: seq<byte>, b: seq<byte>, c: seq<byte>, d: seq<byte>)
    requires Holds(mem, at, a + b + c + d)
    ensures Holds(mem, at, a) && Holds(mem, at + |a|, b)
    ensures Holds(mem, at + |a| + |b|, c) && Holds(mem, at + |a| + |b| + |c|, d)
  {
    hide Holds;
    var t := a + b + c + d;
    HoldsPart(mem, at, t, |a|);
    assert t[..|a|] == a && t[|a|..] == b + c + d;
    var u := b + c + d;
    HoldsPart(mem, at + |a|, u, |b|);
    assert u[..|b|] == b && u[|b|..] == c + d;
    var v := c + d;
    HoldsPart(mem, at + |a| + |b|, v, |c|);
    assert v[..|c|] == c && v[|c|..] == d;
  }

  lemma NewCodeParts(mem: Memory, p: Place)
    requires Placed(p) && Holds(mem, p.base, NewCode(p))
    ensures var w, d := Assemble(p.worker), p.code[1..p.len];
            && Holds(mem, p.base, Le32(p.ioFn)) && Holds(mem, p.base + 4, w) && Holds(mem, p.base + 4 + |w|, d)
            && Holds(mem, p.base + 4 + |w| + |d|, Jump(p.site + p.len))
            && |NewCode(p)| == 4 + |w| + |d| + JMP_SIZE
  {
    hide Holds, Assemble, Jump, Le32;
    assert Worker(p.worker)[4..] == Assemble(p.worker);
    FourParts(mem, p.base, Le32(p.ioFn), Assemble(p.worker), p.code[1..p.len], Jump(p.site + p.len));
  }

  // ---- The whole way ----

  /** Changes in the free stack do not matter. */
  lemma TwinStays(o: Machine, m: Machine, q: Machine, n: Machine, low: nat, p: Place)
    requires Placed(p) && Twin(o, m, low, p) && Room(o, low, 0, p) && Around(m.mem, n.mem, low, m.esp)
    requires q.mem == o.mem && q.r == n.r && q.log == n.log && q.esp == o.esp && n.esp == m.esp
    ensures Twin(q, n, low, p)
  {
    hide NewCode, Jump, Nops;
  }

  lemma RoomThere(o: Machine, m: Machine, low: nat, need: nat, p: Place)
    requires Placed(p) && Twin(o, m, low, p) && Room(o, low, need, p)
    ensures o.esp == m.esp && o.r == m.r && o.log == m.log && low + need <= m.esp && Mapped(m.mem, low, m.esp - low)
    ensures Clear(p.site, p.len, low, m.esp) && Clear(p.base, |NewCode(p)|, low, m.esp)
    ensures Holds(m.mem, p.base, NewCode(p)) && Holds(m.mem, p.site, Jump(p.base + 4))
  {
    hide NewCode, Jump, Nops;
    assert PatchedSite(p.base, p.len)[..JMP_SIZE] == Jump(p.base + 4);
    HoldsPart(m.mem, p.site, PatchedSite(p.base, p.len), JMP_SIZE);
  }

  /** Both programs have reached the port access. The stack has room for what the worker pushes and for what the
      port function needs. */
  predicate AtPatch(o: Machine, m: Machine, callee: Callee, p: Place, low: nat, room: nat)
    requires Placed(p)
  {
    && o.eip == m.eip == p.site && p.ioFn == callee.at && Words(o.r)
    && Twin(o, m, low, p) && Room(o, low, room + 44, p)
  }

  /** Into the worker. */
  lemma Enters(o: Machine, m: Machine, callee: Callee, p: Place, low: nat, room: nat) returns (a: Machine)
    requires Placed(p) && AtPatch(o, m, callee, p, low, room)
    ensures Run(JumpCode(p.base + 4), m, callee) == Some(a)
    ensures a == m.(eip := p.base + 4, mem := a.mem) && Twin(o, a, low, p)
  {
    hide Holds, Run, Around, Mapped, Jump, Twin, NewCode;
    RoomThere(o, m, low, room + 44, p);
    a := Jumps(p.base + 4, m, callee, low);
    TwinStays(o, m, o, a, low, p);
  }

  /** Through the displaced code and back: `b` is what the worker leaves, `q` the same without trampoline. */
  lemma Leaves(q: Machine, b: Machine, effect: Machine -> Machine, p: Place, low: nat, callee: Callee)
    returns (n: Machine)
    requires Placed(p) && Twin(q, b, low, p) && b.eip == p.base + 4 + |Assemble(p.worker)|
    requires Displaceable(effect, q, low, p)
    ensures Holds(b.mem, b.eip, p.code[1..p.len])
    ensures Run(JumpCode(p.site + p.len), effect(b).(eip := b.eip + p.len - 1), callee) == Some(n)
    ensures n.eip == p.site + p.len && Twin(effect(q), n, low, p)
  {
    hide Holds, Run, Around, Mapped, Jump, Twin, NewCode, Room, Assemble;
    TwinHolds(q, b, low, p);
    NewCodeParts(b.mem, p);
    var e, c := effect(q), effect(b).(eip := b.eip + p.len - 1);
    TwinIp(e, effect(b), c, low, p);
    RoomThere(e, c, low, 4, p);
    NewCodeParts(c.mem, p);
    n := Jumps(p.site + p.len, c, callee, low);
    RoomLess(e, low, 4, p);
    TwinStays(e, c, e, n, low, p);
  }

  lemma TwinHolds(o: Machine, n: Machine, low: nat, p: Place)
    requires Placed(p) && Twin(o, n, low, p)
    ensures Holds(n.mem, p.base, NewCode(p)) && Holds(o.mem, p.site, p.code[..p.len])
  {
  }

  lemma TwinIp(o: Machine, m: Machine, n: Machine, low: nat, p: Place)
    requires Placed(p) && Twin(o, m, low, p) && n == m.(eip := n.eip)
    ensures Twin(o, n, low, p)
  {
  }

  lemma RoomLess(o: Machine, low: nat, need: nat, p: Place)
    requires Placed(p) && Room(o, low, need, p)
    ensures Room(o, low, 0, p)
  {
  }

  /** OUT DX,AL. The original program makes the port write and executes the instructions behind it; the patched one
      goes through push/ret, worker, displaced bytes and push/ret. Both come to the same address, twins again. */
  lemma PatchedOutSimulates(o: Machine, m: Machine, callee: Callee, p: Place, low: nat, room: nat,
                            effect: Machine -> Machine, ports: Ports)
    requires Placed(p) && p.worker == OUT_CODE && AtPatch(o, m, callee, p, low, room)
    requires Writer(callee, low, room, ports)
    requires Displaceable(effect, OutAccess(o, ports).(eip := o.eip + 1), low, p)
    ensures var q, n := RunOriginal(o, Outputs(ports), effect, p), RunPatched(m, effect, p, callee);
            && q.Some? && n.Some? && q.value.eip == n.value.eip == p.site + p.len
            && Twin(q.value, n.value, low, p)
  {
    hide Holds, Run, Around, Mapped, Jump, Assemble, Le32, Displaceable, Writer, NewCode, Twin, Room;
    TwinHolds(o, m, low, p);
    var a := Enters(o, m, callee, p, low, room);
    RoomThere(o, a, low, room + 44, p);
    NewCodeParts(a.mem, p);
    var b := OutWorker(a, callee, p.base, low, room, ports);
    var q := OutAccess(o, ports).(eip := o.eip + 1);
    RoomLess(o, low, room + 44, p);
    TwinStays(o, a, q, b, low, p);
    var n := Leaves(q, b, effect, p, low, callee);
    TwinOriginalIp(effect(q), n, low, p, o.eip + p.len);
  }

  lemma TwinOriginalIp(o: Machine, n: Machine, low: nat, p: Place, eip: nat)
    requires Placed(p) && Twin(o, n, low, p)
    ensures Twin(o.(eip := eip), n, low, p)
  {
  }

  /** IN AL,DX: likewise, with the byte that the device answers in AL and the other 24 bits of EAX kept. */
  lemma PatchedInSimulates(o: Machine, m: Machine, callee: Callee, p: Place, low: nat, room: nat,
                           effect: Machine -> Machine, ports: Ports)
    requires Placed(p) && p.worker == IN_CODE && AtPatch(o, m, callee, p, low, room)
    requires Reader(callee, low, room, ports)
    requires Displaceable(effect, InAccess(o, ports).(eip := o.eip + 1), low, p)
    ensures var q, n := RunOriginal(o, Inputs(ports), effect, p), RunPatched(m, effect, p, callee);
            && q.Some? && n.Some? && q.value.eip == n.value.eip == p.site + p.len
            && Twin(q.value, n.value, low, p)
  {
    hide Holds, Run, Around, Mapped, Jump, Assemble, Le32, Displaceable, Reader, NewCode, Twin, Room;
    TwinHolds(o, m, low, p);
    var a := Enters(o, m, callee, p, low, room);
    RoomThere(o, a, low, room + 44, p);
    NewCodeParts(a.mem, p);
    var b := InWorker(a, callee, p.base, low, room, ports);
    var q := InAccess(o, ports).(eip := o.eip + 1);
    RoomLess(o, low, room + 44, p);
    TwinStays(o, a, q, b, low, p);
    var n := Leaves(q, b, effect, p, low, callee);
    TwinOriginalIp(effect(q), n, low, p, o.eip + p.len);
  }

  /** What a successful patch leaves makes the patched program the twin of the program in the memory before it, for
      every thread whose stack was there before. */
  lemma PatchLeadsThere(before: Memory, m: Machine, callee: Callee, p: Place, low: nat, room: nat)
    requires Placed(p) && p.ioFn == callee.at && Holds(before, p.site, p.code[..p.len])
    requires Patched(before, m.mem, Worker(p.worker), p.ioFn, p.code, p.site, p.base, p.len)
    requires m.eip == p.site && Words(m.r) && low + room + 44 <= m.esp && Mapped(before, low, m.esp - low)
    requires Clear(p.site, p.len, low, m.esp)
    ensures AtPatch(m.(mem := before), m, callee, p, low, room)
  {
    hide Trampoline, Jump, Nops, Le32;
    StackElsewhere(before, low, m.esp, p.base, |NewCode(p)|);
  }

  lemma StackElsewhere(mem: Memory, low: nat, esp: nat, at: nat, n: nat)
    requires low < esp && n > 0 && Mapped(mem, low, esp - low) && Unmapped(mem, at, n)
    ensures Clear(at, n, low, esp)
  {
    var a := if low < at then at else low;
    assert a < esp && a < at + n ==> a in mem && a !in mem;
  }
}
