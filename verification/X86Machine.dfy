/** A 32-bit processor as far as the trampoline needs it, and the workers of injectables.asm. */
module X86Machine {
  import opened Bits
  import opened ByteMemory
  import opened Options

  datatype Regs = Regs(eax: nat, ecx: nat, edx: nat, ebx: nat, ebp: nat, esi: nat, edi: nat)

  /** Accesses to printer-port registers, with the byte that went over. */
  datatype Access = Write(port: nat, value: byte) | Read(port: nat, value: byte)

  /** What port functions do to the device history, and the byte that a read returns. */
  datatype Ports = Ports(
    write: (seq<Access>, nat, byte) -> seq<Access>,
    read: (seq<Access>, nat) -> seq<Access>,
    value: (seq<Access>, nat) -> byte
  )

  datatype Machine = Machine(r: Regs, esp: nat, eip: nat, mem: Memory, log: seq<Access>)

  predicate Words(r: Regs) {
    r.eax < TOP && r.ecx < TOP && r.edx < TOP && r.ebx < TOP && r.ebp < TOP && r.esi < TOP && r.edi < TOP
  }

  function Load32(mem: Memory, a: nat): nat {
    if Mapped(mem, a, 4) then Word([mem[a], mem[a + 1], mem[a + 2], mem[a + 3]]) else 0
  }

  lemma LoadWord(mem: Memory, a: nat, w: nat)
    requires Holds(mem, a, Le32(w)) && w < TOP
    ensures Load32(mem, a) == w
  {
    hide Word, Le32;
    assert [mem[a], mem[a + 1], mem[a + 2], mem[a + 3]] == Le32(w);
    WordOfLe32(w);
  }

  // ---- Instructions of the workers and jumps ----

  datatype Instr =
    | Pushad
    | Popad
    | CallNext                // CALL $+5
    | PopEcx
    | SubEcx(imm: byte)
    | LoadEcx                 // MOV ECX, [ECX]
    | AndEaxFF                // AND EAX, 0FFh
    | AndEdxFFFF              // AND EDX, 0FFFFh
    | PushEax
    | PushEdx
    | CallEcx
    | AddEsp(imm: byte)
    | SubEsp(imm: byte)
    | StoreAl(disp: byte)     // MOV [ESP+disp], AL
    | LoadAl                  // MOV AL, [ESP]
    | PushImm(w: nat)
    | Ret

  function Encode(i: Instr): seq<byte> {
    match i
    case Pushad => [0x60]
    case Popad => [0x61]
    case CallNext => [0xe8, 0, 0, 0, 0]
    case PopEcx => [0x59]
    case SubEcx(imm) => [0x83, 0xe9, imm]
    case LoadEcx => [0x8b, 0x09]
    case AndEaxFF => [0x25, 0xff, 0, 0, 0]
    case AndEdxFFFF => [0x81, 0xe2, 0xff, 0xff, 0, 0]
    case PushEax => [0x50]
    case PushEdx => [0x52]
    case CallEcx => [0xff, 0xd1]
    case AddEsp(imm) => [0x83, 0xc4, imm]
    case SubEsp(imm) => [0x83, 0xec, imm]
    case StoreAl(disp) => [0x88, 0x44, 0x24, disp]
    case LoadAl => [0x8a, 0x04, 0x24]
    case PushImm(w) => [0x68] + Le32(w)
    case Ret => [0xc3]
  }

  function Assemble(code: seq<Instr>): seq<byte> {
    if code == [] then [] else Encode(code[0]) + Assemble(code[1..])
  }

  const OUT_CODE: seq<Instr> :=
    [Pushad, CallNext, PopEcx, SubEcx(10), LoadEcx, AndEaxFF, AndEdxFFFF, PushEax, PushEdx, CallEcx, AddEsp(8), Popad]

  const IN_CODE: seq<Instr> :=
    [SubEsp(4), Pushad, CallNext, PopEcx, SubEcx(13), LoadEcx, AndEdxFFFF, PushEdx, CallEcx, AddEsp(4), StoreAl(32),
     Popad, LoadAl, AddEsp(4)]

  /** out_byte_fn and in_byte_fn: a doubleword for the callee's address, then the code. */
  function Worker(code: seq<Instr>): (b: seq<byte>)
    ensures |b| >= 4
  {
    [0, 0, 0, 0] + Assemble(code)
  }

  // ---- Execution ----

  /** The function that a worker calls: where it lies and what it does, from its first instruction to its return. */
  datatype Callee = Callee(at: nat, run: Machine -> Machine)

  function Push(m: Machine, w: nat): Machine
    requires m.esp >= 4
  {
    m.(esp := m.esp - 4, mem := Overwrite(m.mem, m.esp - 4, Le32(w)))
  }

  /** The registers as PUSHAD leaves them on the stack, from the lowest address on. */
  function Saved(m: Machine): (b: seq<byte>)
    ensures |b| == 32
  {
    Le32(m.r.edi) + Le32(m.r.esi) + Le32(m.r.ebp) + Le32(m.esp)
    + Le32(m.r.ebx) + Le32(m.r.edx) + Le32(m.r.ecx) + Le32(m.r.eax)
  }

  function LowByte(w: nat): byte { w % 256 }

  function SetAl(eax: nat, b: byte): nat { eax / 256 * 256 + b as nat }

  function Restored(mem: Memory, esp: nat): Regs {
    Regs(Load32(mem, esp + 28), Load32(mem, esp + 24), Load32(mem, esp + 20), Load32(mem, esp + 16),
         Load32(mem, esp + 8), Load32(mem, esp + 4), Load32(mem, esp))
  }

  /** The effect of an instruction apart from the instruction pointer, which is already behind it. */
  function Effect(i: Instr, m: Machine, callee: Callee): Option<Machine> {
    match i
    case Pushad => if m.esp < 32 then None else Some(m.(esp := m.esp - 32, mem := Overwrite(m.mem, m.esp - 32, Saved(m))))
    case Popad => Some(m.(r := Restored(m.mem, m.esp), esp := m.esp + 32))
    case CallNext => if m.esp < 4 then None else Some(Push(m, m.eip))
    case PopEcx => Some(m.(r := m.r.(ecx := Load32(m.mem, m.esp)), esp := m.esp + 4))
    case SubEcx(imm) => Some(m.(r := m.r.(ecx := (m.r.ecx - imm as int) % TOP)))
    case LoadEcx => Some(m.(r := m.r.(ecx := Load32(m.mem, m.r.ecx))))
    case AndEaxFF => Some(m.(r := m.r.(eax := m.r.eax % 0x100)))
    case AndEdxFFFF => Some(m.(r := m.r.(edx := m.r.edx % 0x1_0000)))
    case PushEax => if m.esp < 4 then None else Some(Push(m, m.r.eax))
    case PushEdx => if m.esp < 4 then None else Some(Push(m, m.r.edx))
    case CallEcx => if m.esp < 4 || m.r.ecx != callee.at then None else Some(callee.run(Push(m, m.eip).(eip := callee.at)))
    case AddEsp(imm) => Some(m.(esp := m.esp + imm as nat))
    case SubEsp(imm) => if m.esp < imm as nat then None else Some(m.(esp := m.esp - imm as nat))
    case StoreAl(disp) => Some(m.(mem := Overwrite(m.mem, m.esp + disp as nat, [LowByte(m.r.eax)])))
    case LoadAl => if m.esp !in m.mem then None else Some(m.(r := m.r.(eax := SetAl(m.r.eax, m.mem[m.esp]))))
    case PushImm(w) => if m.esp < 4 then None else Some(Push(m, w))
    case Ret => Some(m.(eip := Load32(m.mem, m.esp), esp := m.esp + 4))
  }

  /** Fetch and execute: the instruction must be what the memory holds at the instruction pointer. */
  function Step(i: Instr, m: Machine, callee: Callee): Option<Machine> {
    if !Holds(m.mem, m.eip, Encode(i)) then None else Effect(i, m.(eip := m.eip + |Encode(i)|), callee)
  }

  function Run(code: seq<Instr>, m: Machine, callee: Callee): Option<Machine> {
    if code == [] then Some(m)
    else match Step(code[0], m, callee)
      case None => None
      case Some(n) => Run(code[1..], n, callee)
  }
}
