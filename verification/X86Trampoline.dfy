/** Running the patched site is the port access followed by the displaced instructions. */
module X86Trampoline {
  import opened Bits
  import opened ByteMemory
  import opened Options
  import opened X86Machine

  /** Memory between `low` and `top` may differ; nothing has been unmapped. */
  predicate Around(before: Memory, now: Memory, low: nat, top: nat) {
    UnchangedOutside(before, now, low, top) && before.Keys <= now.Keys
  }

  lemma AroundBoth(a: Memory, b: Memory, c: Memory, low: nat, top: nat, high: nat)
    requires Around(a, b, low, top) && Around(b, c, low, high)
    ensures Around(a, c, low, if top < high then high else top)
  {
  }

  lemma MappedStays(before: Memory, now: Memory, low: nat, top: nat, at: nat, n: nat)
    requires Mapped(before, at, n) && Around(before, now, low, top)
    ensures Mapped(now, at, n)
  {
  }

  lemma StoreAround(mem: Memory, at: nat, data: seq<byte>, low: nat, top: nat)
    requires low <= at && at + |data| <= top && Mapped(mem, low, top - low)
    ensures var now := Overwrite(mem, at, data);
            Around(mem, now, low, top) && Holds(now, at, data) && Mapped(now, low, top - low)
  {
  }

  /** The region does not meet the free part of the stack. */
  predicate Clear(at: nat, n: nat, low: nat, top: nat) { at + n <= low || top <= at }

  lemma CodeStays(before: Memory, now: Memory, low: nat, top: nat, at: nat, b: seq<byte>)
    requires Holds(before, at, b) && Around(before, now, low, top) && Clear(at, |b|, low, top)
    ensures Holds(now, at, b)
  {
  }

  lemma StepIs(i: Instr, rest: seq<Instr>, m: Machine, callee: Callee)
    requires Holds(m.mem, m.eip, Assemble([i] + rest))
    ensures Run([i] + rest, m, callee) ==
            match Effect(i, m.(eip := m.eip + |Encode(i)|), callee) {
              case None => None
              case Some(n) => Run(rest, n, callee)
            }
    ensures Holds(m.mem, m.eip + |Encode(i)|, Assemble(rest))
    ensures |Assemble([i] + rest)| == |Encode(i)| + |Assemble(rest)|
  {
    hide Effect, Encode, Holds;
    assert ([i] + rest)[1..] == rest;
    var code := Assemble([i] + rest);
    assert code == Encode(i) + Assemble(rest);
    HoldsPart(m.mem, m.eip, code, |Encode(i)|);
    assert code[..|Encode(i)|] == Encode(i) && code[|Encode(i)|..] == Assemble(rest);
  }

  // ---- Finding the callee's address ----

  function Find(k: byte, rest: seq<Instr>): seq<Instr> {
    [CallNext] + ([PopEcx] + ([SubEcx(k)] + ([LoadEcx] + rest)))
  }

  /** CALL $+5, POP ECX, SUB ECX, MOV ECX,[ECX]: wherever the worker lies, ECX receives the doubleword at its start. */
  lemma FindCallee(k: byte, rest: seq<Instr>, m: Machine, callee: Callee, base: nat, low: nat) returns (n: Machine)
    requires Holds(m.mem, m.eip, Assemble(Find(k, rest))) && Holds(m.mem, base, Le32(callee.at)) && callee.at < TOP
    requires base <= m.eip && m.eip + 5 == base + k as nat < TOP && low + 4 <= m.esp && Mapped(m.mem, low, m.esp - low)
    requires Clear(base, m.eip + |Assemble(Find(k, rest))| - base, low, m.esp)
    ensures Run(Find(k, rest), m, callee) == Run(rest, n, callee)
    ensures n == m.(r := m.r.(ecx := callee.at), eip := m.eip + 11, mem := n.mem) && Around(m.mem, n.mem, low, m.esp)
    ensures |Assemble(Find(k, rest))| == 11 + |Assemble(rest)| && Holds(n.mem, n.eip, Assemble(rest))
  {
    hide Holds, Assemble, Run, Overwrite, Around, Load32, Mapped, Le32;
    var r3 := [LoadEcx] + rest;
    var r2 := [SubEcx(k)] + r3;
    var r1 := [PopEcx] + r2;
    StepIs(CallNext, r1, m, callee);
    var m1 := Push(m.(eip := m.eip + 5), m.eip + 5);
    StoreAround(m.mem, m1.esp, Le32(m.eip + 5), low, m.esp);
    CodeStays(m.mem, m1.mem, low, m.esp, m1.eip, Assemble(r1));
    StepIs(PopEcx, r2, m1, callee);
    LoadWord(m1.mem, m1.esp, m.eip + 5);
    var m2 := m1.(eip := m1.eip + 1, r := m1.r.(ecx := m.eip + 5), esp := m.esp);
    StepIs(SubEcx(k), r3, m2, callee);
    var m3 := m2.(eip := m2.eip + 3, r := m2.r.(ecx := base));
    StepIs(LoadEcx, rest, m3, callee);
    CodeStays(m.mem, m1.mem, low, m.esp, base, Le32(callee.at));
    LoadWord(m3.mem, base, callee.at);
    n := m3.(eip := m3.eip + 2, r := m3.r.(ecx := callee.at));
  }

  // ---- Registers saved by PUSHAD ----

  /** Eight words on the stack, read back one by one. */
  lemma ReadBack(mem: Memory, at: nat, m: Machine)
    requires Holds(mem, at, Saved(m)) && Words(m.r)
    ensures Restored(mem, at) == m.r
  {
    hide Holds, Load32, Le32;
    WordAt(mem, at, Saved(m), 0, m.r.edi);
    WordAt(mem, at, Saved(m), 4, m.r.esi);
    WordAt(mem, at, Saved(m), 8, m.r.ebp);
    WordAt(mem, at, Saved(m), 16, m.r.ebx);
    WordAt(mem, at, Saved(m), 20, m.r.edx);
    WordAt(mem, at, Saved(m), 24, m.r.ecx);
    WordAt(mem, at, Saved(m), 28, m.r.eax);
  }

  lemma WordAt(mem: Memory, at: nat, data: seq<byte>, k: nat, w: nat)
    requires Holds(mem, at, data) && k + 4 <= |data| && data[k..k + 4] == Le32(w) && w < TOP
    ensures Load32(mem, at + k) == w
  {
    hide Le32, Load32;
    HoldsPart(mem, at, data, k);
    HoldsPart(mem, at + k, data[k..], 4);
    assert data[k..][..4] == data[k..k + 4];
    LoadWord(mem, at + k, w);
  }

  // ---- The callee ----

  /** What a cdecl function leaves alone: the caller's registers, and memory outside the free stack and its
      `args` bytes of arguments. It comes back behind the call with its address popped. */
  predicate Returns(m: Machine, n: Machine, low: nat, args: nat) {
    && n.esp == m.esp + 4 && n.eip == Load32(m.mem, m.esp) && Words(n.r)
    && n.r.ebx == m.r.ebx && n.r.ebp == m.r.ebp && n.r.esi == m.r.esi && n.r.edi == m.r.edi
    && Around(m.mem, n.mem, low, m.esp + 4 + args)
  }

  /** With `room` bytes of free stack below its return address. */
  predicate Called(m: Machine, callee: Callee, low: nat, room: nat, args: nat) {
    m.eip == callee.at && Words(m.r) && low + room <= m.esp && Mapped(m.mem, low, m.esp + 4 + args - low)
  }

  /** WritePort8(port, value) */
  ghost predicate Writer(callee: Callee, low: nat, room: nat, ports: Ports) {
    callee.at < TOP && forall m :: Called(m, callee, low, room, 8) ==>
      var n := callee.run(m);
      && Returns(m, n, low, 8)
      && n.log == ports.write(m.log, Load32(m.mem, m.esp + 4) % 0x1_0000, LowByte(Load32(m.mem, m.esp + 8)))
  }

  /** ReadPort8(port): the answer is in AL. */
  ghost predicate Reader(callee: Callee, low: nat, room: nat, ports: Ports) {
    callee.at < TOP && forall m :: Called(m, callee, low, room, 4) ==>
      var n := callee.run(m); var port := Load32(m.mem, m.esp + 4) % 0x1_0000;
      && Returns(m, n, low, 4)
      && n.log == ports.read(m.log, port) && LowByte(n.r.eax) == ports.value(m.log, port)
  }

  // ---- out_byte_fn ----

  function CallOut(rest: seq<Instr>): seq<Instr> {
    [AndEaxFF] + ([AndEdxFFFF] + ([PushEax] + ([PushEdx] + ([CallEcx] + rest))))
  }

  /** AND EAX, AND EDX, PUSH EAX, PUSH EDX. */
  lemma PushesArguments(rest: seq<Instr>, m: Machine, callee: Callee, low: nat) returns (n: Machine)
    requires Holds(m.mem, m.eip, Assemble(CallOut(rest))) && low + 8 <= m.esp && Mapped(m.mem, low, m.esp - low)
    requires Clear(m.eip, |Assemble(CallOut(rest))|, low, m.esp)
    ensures var eax, edx := m.r.eax % 0x100, m.r.edx % 0x1_0000;
            && n == m.(r := m.r.(eax := eax, edx := edx), esp := m.esp - 8, eip := m.eip + 13, mem := n.mem)
            && n.mem == Overwrite(Overwrite(m.mem, m.esp - 4, Le32(eax)), m.esp - 8, Le32(edx))
    ensures Run(CallOut(rest), m, callee) == Run([CallEcx] + rest, n, callee) && Around(m.mem, n.mem, low, m.esp)
    ensures |Assemble(CallOut(rest))| == 13 + |Assemble([CallEcx] + rest)|
    ensures Holds(n.mem, n.eip, Assemble([CallEcx] + rest))
    ensures Mapped(n.mem, low, m.esp - low)
  {
    hide Holds, Assemble, Run, Overwrite, Around, Load32, Mapped, Le32;
    var r4 := [CallEcx] + rest;
    var r3 := [PushEdx] + r4;
    var r2 := [PushEax] + r3;
    var r1 := [AndEdxFFFF] + r2;
    StepIs(AndEaxFF, r1, m, callee);
    var a := m.(eip := m.eip + 5, r := m.r.(eax := m.r.eax % 0x100));
    StepIs(AndEdxFFFF, r2, a, callee);
    var b := a.(eip := a.eip + 6, r := a.r.(edx := a.r.edx % 0x1_0000));
    StepIs(PushEax, r3, b, callee);
    var c := Push(b.(eip := b.eip + 1), b.r.eax);
    StoreAround(b.mem, c.esp, Le32(b.r.eax), low, m.esp);
    CodeStays(b.mem, c.mem, low, m.esp, c.eip, Assemble(r3));
    StepIs(PushEdx, r4, c, callee);
    n := Push(c.(eip := c.eip + 1), c.r.edx);
    StoreAround(c.mem, n.esp, Le32(c.r.edx), low, m.esp);
    AroundBoth(m.mem, c.mem, n.mem, low, m.esp, m.esp);
    CodeStays(c.mem, n.mem, low, m.esp, n.eip, Assemble(r4));
  }

  /** The arguments go onto the stack, AL above DX, and the callee receives them. */
  lemma CallsWriter(rest: seq<Instr>, m: Machine, callee: Callee, low: nat, room: nat, ports: Ports)
    returns (n: Machine)
    requires Holds(m.mem, m.eip, Assemble(CallOut(rest)))
    requires Writer(callee, low, room, ports) && m.r.ecx == callee.at && Words(m.r)
    requires low + room + 12 <= m.esp && Mapped(m.mem, low, m.esp - low) && m.eip + 15 < TOP
    requires Clear(m.eip, |Assemble(CallOut(rest))|, low, m.esp)
    ensures Run(CallOut(rest), m, callee) == Run(rest, n, callee)
    ensures n.esp == m.esp - 8 && n.eip == m.eip + 15 && Words(n.r) && Around(m.mem, n.mem, low, m.esp)
    ensures n.log == ports.write(m.log, m.r.edx % 0x1_0000, LowByte(m.r.eax))
    ensures |Assemble(CallOut(rest))| == 15 + |Assemble(rest)| && Holds(n.mem, n.eip, Assemble(rest))
  {
    hide Holds, Assemble, Run, Overwrite, Around, Load32, Mapped, Le32;
    var d := PushesArguments(rest, m, callee, low);
    StepIs(CallEcx, rest, d, callee);
    var e := Push(d.(eip := d.eip + 2), d.eip + 2).(eip := callee.at);
    StoreAround(d.mem, e.esp, Le32(d.eip + 2), low, m.esp);
    ArgumentsSeen(m, d, e, low);
    assert Called(e, callee, low, room, 8);
    n := callee.run(e);
    AroundBoth(d.mem, e.mem, n.mem, low, m.esp, m.esp);
    AroundBoth(m.mem, d.mem, n.mem, low, m.esp, m.esp);
    CodeStays(d.mem, n.mem, low, m.esp, n.eip, Assemble(rest));
  }

  /** After the three pushes the callee finds its return address and both arguments. */
  lemma ArgumentsSeen(m: Machine, d: Machine, e: Machine, low: nat)
    requires low + 12 <= m.esp && Mapped(m.mem, low, m.esp - low) && d.eip + 2 < TOP && d.esp == m.esp - 8
    requires d.mem == Overwrite(Overwrite(m.mem, m.esp - 4, Le32(d.r.eax)), m.esp - 8, Le32(d.r.edx))
    requires d.r.eax < TOP && d.r.edx < TOP
    requires e.esp == m.esp - 12 && e.mem == Overwrite(d.mem, e.esp, Le32(d.eip + 2))
    ensures Load32(e.mem, e.esp) == d.eip + 2 && Load32(e.mem, e.esp + 4) == d.r.edx
    ensures Load32(e.mem, e.esp + 8) == d.r.eax
  {
    hide Le32, Load32;
    LoadWord(e.mem, e.esp, d.eip + 2);
    LoadWord(e.mem, e.esp + 4, d.r.edx);
    LoadWord(e.mem, e.esp + 8, d.r.eax);
  }

  /** PUSHAD keeps the registers in the 32 bytes above the free stack. */
  lemma SavesAll(rest: seq<Instr>, m: Machine, callee: Callee, low: nat) returns (n: Machine)
    requires Holds(m.mem, m.eip, Assemble([Pushad] + rest)) && low + 32 <= m.esp && Mapped(m.mem, low, m.esp - low)
    requires Clear(m.eip, |Assemble([Pushad] + rest)|, low, m.esp)
    ensures Run([Pushad] + rest, m, callee) == Run(rest, n, callee)
    ensures n == m.(eip := m.eip + 1, esp := m.esp - 32, mem := n.mem) && Around(m.mem, n.mem, low, m.esp)
    ensures |Assemble([Pushad] + rest)| == 1 + |Assemble(rest)| && Holds(n.mem, n.eip, Assemble(rest))
    ensures Holds(n.mem, n.esp, Saved(m)) && Mapped(n.mem, low, m.esp - low)
  {
    hide Holds, Assemble, Run, Overwrite, Around, Mapped, Le32;
    StepIs(Pushad, rest, m, callee);
    n := m.(eip := m.eip + 1, esp := m.esp - 32, mem := Overwrite(m.mem, m.esp - 32, Saved(m)));
    StoreAround(m.mem, n.esp, Saved(m), low, m.esp);
    CodeStays(m.mem, n.mem, low, m.esp, n.eip, Assemble(rest));
  }

  const OUT_END: seq<Instr> := [AddEsp(8)] + ([Popad] + [])

  lemma AssembleNothing()
    ensures Assemble([]) == []
  {
  }

  lemma OutCode()
    ensures OUT_CODE == [Pushad] + Find(10, CallOut(OUT_END))
  {
  }

  /** ADD ESP,8 and POPAD bring back what PUSHAD saved. */
  lemma OutEnds(m: Machine, saved: Machine, callee: Callee)
    requires Holds(m.mem, m.eip, Assemble(OUT_END)) && Holds(m.mem, m.esp + 8, Saved(saved)) && Words(saved.r)
    ensures Run(OUT_END, m, callee) == Some(m.(r := saved.r, esp := m.esp + 40, eip := m.eip + 4))
    ensures |Assemble(OUT_END)| == 4
  {
    hide Holds, Assemble, Saved, Restored;
    StepIs(AddEsp(8), [Popad] + [], m, callee);
    var a := m.(eip := m.eip + 3, esp := m.esp + 8);
    StepIs(Popad, [], a, callee);
    ReadBack(a.mem, a.esp, saved);
    AssembleNothing();
  }

  /** out_byte_fn: one WritePort8 of AL to the port in DX; every register and all memory outside the free stack as
      before, wherever the worker lies. */
  lemma OutWorker(m: Machine, callee: Callee, base: nat, low: nat, room: nat, ports: Ports) returns (n: Machine)
    requires Writer(callee, low, room, ports) && Words(m.r)
    requires low + room + 44 <= m.esp && Mapped(m.mem, low, m.esp - low)
    requires m.eip == base + 4 && base + 64 < TOP && Clear(base, 4 + |Assemble(OUT_CODE)|, low, m.esp)
    requires Holds(m.mem, base, Le32(callee.at)) && Holds(m.mem, base + 4, Assemble(OUT_CODE))
    ensures Run(OUT_CODE, m, callee) == Some(n) && |Assemble(OUT_CODE)| == 31
    ensures n.r == m.r && n.esp == m.esp && n.eip == base + 4 + |Assemble(OUT_CODE)| && Around(m.mem, n.mem, low, m.esp)
    ensures n.log == ports.write(m.log, m.r.edx % 0x1_0000, LowByte(m.r.eax))
  {
    hide Holds, Assemble, Run, Around, Mapped, Le32, Writer, Saved;
    OutCode();
    var a := SavesAll(Find(10, CallOut(OUT_END)), m, callee, low);
    CodeStays(m.mem, a.mem, low, m.esp, base, Le32(callee.at));
    CalleeAddress(callee, low, room, ports);
    StackBelow(a.mem, low, m.esp, a.esp);
    var b := FindCallee(10, CallOut(OUT_END), a, callee, base, low);
    MappedStays(a.mem, b.mem, low, a.esp, low, a.esp - low);
    var c := CallsWriter(OUT_END, b, callee, low, room, ports);
    AroundBoth(a.mem, b.mem, c.mem, low, a.esp, a.esp);
    CodeStays(a.mem, c.mem, low, a.esp, a.esp, Saved(m));
    OutEnds(c, m, callee);
    AroundBoth(m.mem, a.mem, c.mem, low, m.esp, a.esp);
    n := c.(r := m.r, esp := m.esp, eip := c.eip + 4);
  }

  lemma CalleeAddress(callee: Callee, low: nat, room: nat, ports: Ports)
    requires Writer(callee, low, room, ports)
    ensures callee.at < TOP
  {
  }

  lemma StackBelow(mem: Memory, low: nat, top: nat, esp: nat)
    requires low <= esp <= top && Mapped(mem, low, top - low)
    ensures Mapped(mem, low, esp - low)
  {
  }

  // ---- in_byte_fn ----

  function CallIn(rest: seq<Instr>): seq<Instr> { [AndEdxFFFF] + ([PushEdx] + ([CallEcx] + rest)) }

  const IN_END: seq<Instr> := [AddEsp(4)] + ([StoreAl(32)] + ([Popad] + ([LoadAl] + ([AddEsp(4)] + []))))

  lemma InCode()
    ensures IN_CODE == [SubEsp(4)] + ([Pushad] + Find(13, CallIn(IN_END)))
  {
  }

  /** The port goes onto the stack and the callee reads it. */
  lemma CallsReader(rest: seq<Instr>, m: Machine, callee: Callee, low: nat, room: nat, ports: Ports)
    returns (n: Machine)
    requires Holds(m.mem, m.eip, Assemble(CallIn(rest)))
    requires Reader(callee, low, room, ports) && m.r.ecx == callee.at && Words(m.r)
    requires low + room + 8 <= m.esp && Mapped(m.mem, low, m.esp - low) && m.eip + 9 < TOP
    requires Clear(m.eip, |Assemble(CallIn(rest))|, low, m.esp)
    ensures Run(CallIn(rest), m, callee) == Run(rest, n, callee)
    ensures n.esp == m.esp - 4 && n.eip == m.eip + 9 && Words(n.r) && Around(m.mem, n.mem, low, m.esp)
    ensures var port := m.r.edx % 0x1_0000;
            n.log == ports.read(m.log, port) && LowByte(n.r.eax) == ports.value(m.log, port)
    ensures |Assemble(CallIn(rest))| == 9 + |Assemble(rest)| && Holds(n.mem, n.eip, Assemble(rest))
  {
    hide Holds, Assemble, Run, Overwrite, Around, Load32, Mapped, Le32;
    var r2 := [CallEcx] + rest;
    var r1 := [PushEdx] + r2;
    StepIs(AndEdxFFFF, r1, m, callee);
    var a := m.(eip := m.eip + 6, r := m.r.(edx := m.r.edx % 0x1_0000));
    StepIs(PushEdx, r2, a, callee);
    var d := Push(a.(eip := a.eip + 1), a.r.edx);
    StoreAround(a.mem, d.esp, Le32(a.r.edx), low, m.esp);
    CodeStays(a.mem, d.mem, low, m.esp, d.eip, Assemble(r2));
    StepIs(CallEcx, rest, d, callee);
    var e := Push(d.(eip := d.eip + 2), d.eip + 2).(eip := callee.at);
    StoreAround(d.mem, e.esp, Le32(d.eip + 2), low, m.esp);
    ArgumentSeen(m, d, e, low);
    n := callee.run(e);
    assert Called(e, callee, low, room, 4);
    AroundBoth(d.mem, e.mem, n.mem, low, m.esp, m.esp);
    AroundBoth(m.mem, d.mem, n.mem, low, m.esp, m.esp);
    CodeStays(d.mem, n.mem, low, m.esp, n.eip, Assemble(rest));
  }

  lemma ArgumentSeen(m: Machine, d: Machine, e: Machine, low: nat)
    requires low + 8 <= m.esp && Mapped(m.mem, low, m.esp - low) && d.eip + 2 < TOP && d.esp == m.esp - 4
    requires d.mem == Overwrite(m.mem, m.esp - 4, Le32(d.r.edx)) && d.r.edx < TOP
    requires e.esp == m.esp - 8 && e.mem == Overwrite(d.mem, e.esp, Le32(d.eip + 2))
    ensures Load32(e.mem, e.esp) == d.eip + 2 && Load32(e.mem, e.esp + 4) == d.r.edx
  {
    hide Le32, Load32;
    LoadWord(e.mem, e.esp, d.eip + 2);
    LoadWord(e.mem, e.esp + 4, d.r.edx);
  }

  /** The byte waits in the reserved word while POPAD brings the registers back, and only then goes into AL. */
  lemma InEnds(m: Machine, saved: Machine, callee: Callee, low: nat) returns (n: Machine)
    requires Holds(m.mem, m.eip, Assemble(IN_END)) && Holds(m.mem, m.esp + 4, Saved(saved)) && Words(saved.r)
    requires low <= m.esp && Mapped(m.mem, low, m.esp + 40 - low) && Clear(m.eip, |Assemble(IN_END)|, low, m.esp + 40)
    ensures Run(IN_END, m, callee) == Some(n)
    ensures n == m.(r := saved.r.(eax := SetAl(saved.r.eax, LowByte(m.r.eax))), esp := m.esp + 40, eip := m.eip + 14,
                    mem := n.mem)
    ensures Around(m.mem, n.mem, low, m.esp + 40) && |Assemble(IN_END)| == 14
  {
    hide Holds, Assemble, Saved, Restored, Run, Overwrite, Around, Mapped;
    var r4 := [AddEsp(4)] + [];
    var r3 := [LoadAl] + r4;
    var r2 := [Popad] + r3;
    var r1 := [StoreAl(32)] + r2;
    StepIs(AddEsp(4), r1, m, callee);
    var a := m.(eip := m.eip + 3, esp := m.esp + 4);
    StepIs(StoreAl(32), r2, a, callee);
    var al := LowByte(m.r.eax);
    var b := a.(eip := a.eip + 4, mem := Overwrite(a.mem, a.esp + 32, [al]));
    StoreAround(a.mem, a.esp + 32, [al], low, m.esp + 40);
    SavedBelow(a.mem, a.esp, Saved(saved), al);
    CodeStays(a.mem, b.mem, low, m.esp + 40, b.eip, Assemble(r2));
    StepIs(Popad, r3, b, callee);
    ReadBack(b.mem, b.esp, saved);
    var c := b.(eip := b.eip + 1, r := saved.r, esp := b.esp + 32);
    StepIs(LoadAl, r4, c, callee);
    ByteHeld(c.mem, c.esp, al);
    var d := c.(eip := c.eip + 3, r := c.r.(eax := SetAl(c.r.eax, al)));
    StepIs(AddEsp(4), [], d, callee);
    n := d.(eip := d.eip + 3, esp := d.esp + 4);
    AssembleNothing();
    RunNothing(n, callee);
  }

  lemma RunNothing(m: Machine, callee: Callee)
    ensures Run([], m, callee) == Some(m)
  {
  }

  lemma ByteHeld(mem: Memory, at: nat, b: byte)
    requires Holds(mem, at, [b])
    ensures at in mem && mem[at] == b
  {
  }

  lemma SavedBelow(mem: Memory, at: nat, data: seq<byte>, b: byte)
    requires Holds(mem, at, data)
    ensures Holds(Overwrite(mem, at + |data|, [b]), at, data)
  {
  }

  /** in_byte_fn: one ReadPort8 of the port in DX into AL, the other 24 bits of EAX, every other register and all memory
      outside the free stack as before, wherever the worker lies. */
  lemma InWorker(m: Machine, callee: Callee, base: nat, low: nat, room: nat, ports: Ports) returns (n: Machine)
    requires Reader(callee, low, room, ports) && Words(m.r)
    requires low + room + 44 <= m.esp && Mapped(m.mem, low, m.esp - low)
    requires m.eip == base + 4 && base + 64 < TOP && Clear(base, 4 + |Assemble(IN_CODE)|, low, m.esp)
    requires Holds(m.mem, base, Le32(callee.at)) && Holds(m.mem, base + 4, Assemble(IN_CODE))
    ensures Run(IN_CODE, m, callee) == Some(n) && |Assemble(IN_CODE)| == 38
    ensures var port := m.r.edx % 0x1_0000;
            && n.r == m.r.(eax := SetAl(m.r.eax, ports.value(m.log, port))) && n.log == ports.read(m.log, port)
    ensures n.esp == m.esp && n.eip == base + 4 + |Assemble(IN_CODE)| && Around(m.mem, n.mem, low, m.esp)
  {
    hide Holds, Assemble, Run, Around, Mapped, Le32, Reader, Saved;
    InCode();
    StepIs(SubEsp(4), [Pushad] + Find(13, CallIn(IN_END)), m, callee);
    var m1 := m.(eip := m.eip + 3, esp := m.esp - 4);
    StackBelow(m.mem, low, m.esp, m1.esp);
    var a := SavesAll(Find(13, CallIn(IN_END)), m1, callee, low);
    CodeStays(m.mem, a.mem, low, m1.esp, base, Le32(callee.at));
    ReaderAddress(callee, low, room, ports);
    StackBelow(a.mem, low, m1.esp, a.esp);
    var b := FindCallee(13, CallIn(IN_END), a, callee, base, low);
    MappedStays(a.mem, b.mem, low, a.esp, low, a.esp - low);
    var c := CallsReader(IN_END, b, callee, low, room, ports);
    AroundBoth(a.mem, b.mem, c.mem, low, a.esp, a.esp);
    CodeStays(a.mem, c.mem, low, a.esp, a.esp, Saved(m1));
    AroundBoth(m.mem, a.mem, c.mem, low, m1.esp, a.esp);
    MappedStays(m.mem, c.mem, low, m1.esp, low, m.esp - low);
    n := InEnds(c, m1, callee, low);
    AroundBoth(m.mem, c.mem, n.mem, low, m1.esp, m.esp);
  }

  lemma ReaderAddress(callee: Callee, low: nat, room: nat, ports: Ports)
    requires Reader(callee, low, room, ports)
    ensures callee.at < TOP
  {
  }
}
