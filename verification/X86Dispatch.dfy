/** The debugger in patching mode, from the bytes at the exception to the running trampoline. */
module X86Dispatch {
  import opened Bits
  import opened ByteMemory
  import opened Options
  import opened X86Patch
  import opened X86Machine
  import opened X86Trampoline
  import opened X86Simulation
  import opened X86Sweep
  import opened X86Length
  import opened X86Tables
  import opened PortModes

  /** The worker for OUT and the one for IN, and the library functions that they call. */
  function WorkerFor(isOut: bool): seq<Instr> { if isOut then OUT_CODE else IN_CODE }

  function LibraryFunction(isOut: bool, writePort8: nat, readPort8: nat): nat { if isOut then writePort8 else readPort8 }

  /** What can be patched are the two instructions of one byte that move AL through the port in DX. */
  lemma Patchable(code: seq<byte>, edx: nat)
    requires |code| >= 3
    ensures var d := IoAt(code, edx);
            && (code[0] == 0xee || code[0] == 0xec <==> d.Some? && d.value.ioSize == 8 && d.value.size == 1)
            && (code[0] == 0xee || code[0] == 0xec ==> d.value.isOut == (code[0] == 0xee))
  {
    if code[0] == 0xee || code[0] == 0xec {
      var i := PortOp(code[0] == 0xee, 8, None);
      assert PortOpBytes(i) + code[1..] == code;
      PortOpRoundTrip(i, code[1..], edx);
    } else if IoAt(code, edx).Some? {
      var i := PortOpIsThere(code, edx);
      assert PortOpBytes(i)[0] == code[0];
    }
  }

  /** ProcessIoException with use_mempatch: decode, choose the worker, patch. */
  method PatchException(process: Process, instBuf: array<byte>, edx: nat, site: nat, writePort8: nat, readPort8: nat)
    returns (ok: bool, base: nat, lenTotal: nat)
    requires instBuf.Length == 16 && Holds(process.mem, site, instBuf[..]) && !process.failed
    modifies process, instBuf
    ensures var code := old(instBuf[..]);
            && (ok ==> code[0] == 0xee || code[0] == 0xec)
            && (code[0] != 0xee && code[0] != 0xec ==> Intact(old(process.mem), process.mem))
            && (ok ==> JMP_SIZE <= lenTotal <= 16 && Boundary(code, lenTotal)
                       && Patched(old(process.mem), process.mem, Worker(WorkerFor(code[0] == 0xee)),
                                  LibraryFunction(code[0] == 0xee, writePort8, readPort8), code, site, base, lenTotal))
  {
    hide Holds, Boundary, Assemble, Trampoline, Patched, IoAt, Stages;
    ghost var code := instBuf[..];
    Patchable(code, edx);
    var d := DecodeIoInstruction(instBuf[..], edx);
    if d.None? {
      return false, 0, 0;
    }
    var isOut := d.value.isOut;
    var stage;
    ghost var siteBytes;
    ok, base, lenTotal, stage, siteBytes := PatchIoInstruction(process, instBuf, d.value.ioSize, d.value.size, site,
                                                               Worker(WorkerFor(isOut)),
                                                               LibraryFunction(isOut, writePort8, readPort8));
  }

  /** The access that the opcode stands for. */
  function AccessOf(opcode: byte, ports: Ports): Machine -> Machine {
    if opcode == 0xee then Outputs(ports) else Inputs(ports)
  }

  /** The library function behind the worker keeps the calling convention. */
  ghost predicate Serves(opcode: byte, callee: Callee, low: nat, room: nat, ports: Ports) {
    if opcode == 0xee then Writer(callee, low, room, ports) else Reader(callee, low, room, ports)
  }

  /** From a successful patch to the end of the trampoline: a thread that reaches EE in the program before the patch
      makes the port write, one that reaches EC the port read, and executes what follows; in the patched program it
      goes through the trampoline; both arrive at the same place as twins. */
  lemma PatchedAccess(before: Memory, m: Machine, callee: Callee, p: Place, low: nat, room: nat,
                      effect: Machine -> Machine, ports: Ports)
    requires Placed(p) && (p.code[0] == 0xee || p.code[0] == 0xec) && p.worker == WorkerFor(p.code[0] == 0xee)
    requires p.ioFn == callee.at && Serves(p.code[0], callee, low, room, ports)
    requires Holds(before, p.site, p.code[..p.len])
    requires Patched(before, m.mem, Worker(p.worker), p.ioFn, p.code, p.site, p.base, p.len)
    requires m.eip == p.site && Words(m.r) && low + room + 44 <= m.esp && Mapped(before, low, m.esp - low)
    requires Clear(p.site, p.len, low, m.esp)
    requires Displaceable(effect, AccessOf(p.code[0], ports)(m.(mem := before)).(eip := m.eip + 1), low, p)
    ensures var o := m.(mem := before);
            var q := RunOriginal(o, AccessOf(p.code[0], ports), effect, p);
            var n := RunPatched(m, effect, p, callee);
            && q.Some? && n.Some? && q.value.eip == n.value.eip == p.site + p.len && Twin(q.value, n.value, low, p)
  {
    hide Holds, Mapped, Twin, Displaceable, Writer, Reader, Run, Patched, NewCode, OutAccess, InAccess, Words, Clear, Room,
         RunOriginal, RunPatched, AtPatch, Assemble, Worker, Trampoline;
    var o := m.(mem := before);
    PatchLeadsThere(before, m, callee, p, low, room);
    if p.code[0] == 0xee {
      PatchedOutSimulates(o, m, callee, p, low, room, effect, ports);
    } else {
      PatchedInSimulates(o, m, callee, p, low, room, effect, ports);
    }
  }

  // ---- The workers' bytes ----

  function Joined(parts: seq<seq<byte>>): seq<byte> {
    if parts == [] then [] else parts[0] + Joined(parts[1..])
  }

  lemma {:induction false} AssembledParts(code: seq<Instr>, parts: seq<seq<byte>>)
    requires |code| == |parts| && forall i :: 0 <= i < |code| ==> parts[i] == Encode(code[i])
    ensures Assemble(code) == Joined(parts)
    decreases |code|
  {
    hide Encode;
    if code != [] {
      AssembledParts(code[1..], parts[1..]);
    }
  }

  /** out_byte_fn behind its doubleword, as the assembler lays it out. */
  lemma OutBytes()
    ensures Assemble(OUT_CODE) == Joined([
              [0x60], [0xe8, 0, 0, 0, 0], [0x59], [0x83, 0xe9, 10], [0x8b, 0x09], [0x25, 0xff, 0, 0, 0],
              [0x81, 0xe2, 0xff, 0xff, 0, 0], [0x50], [0x52], [0xff, 0xd1], [0x83, 0xc4, 8], [0x61]])
  {
    hide Assemble, Joined;
    AssembledParts(OUT_CODE, [
      [0x60], [0xe8, 0, 0, 0, 0], [0x59], [0x83, 0xe9, 10], [0x8b, 0x09], [0x25, 0xff, 0, 0, 0],
      [0x81, 0xe2, 0xff, 0xff, 0, 0], [0x50], [0x52], [0xff, 0xd1], [0x83, 0xc4, 8], [0x61]]);
  }

  lemma InBytes()
    ensures Assemble(IN_CODE) == Joined([
              [0x83, 0xec, 4], [0x60], [0xe8, 0, 0, 0, 0], [0x59], [0x83, 0xe9, 13], [0x8b, 0x09],
              [0x81, 0xe2, 0xff, 0xff, 0, 0], [0x52], [0xff, 0xd1], [0x83, 0xc4, 4], [0x88, 0x44, 0x24, 32], [0x61],
              [0x8a, 0x04, 0x24], [0x83, 0xc4, 4]])
  {
    hide Assemble, Joined;
    AssembledParts(IN_CODE, [
      [0x83, 0xec, 4], [0x60], [0xe8, 0, 0, 0, 0], [0x59], [0x83, 0xe9, 13], [0x8b, 0x09],
      [0x81, 0xe2, 0xff, 0xff, 0, 0], [0x52], [0xff, 0xd1], [0x83, 0xc4, 4], [0x88, 0x44, 0x24, 32], [0x61],
      [0x8a, 0x04, 0x24], [0x83, 0xc4, 4]]);
  }

  /** The length disassembler finds every instruction of the workers and jumps where the model has it. */
  lemma WorkersDecode(i: Instr, rest: seq<byte>)
    requires |rest| >= 3
    ensures Length(Encode(i) + rest, 8) == |Encode(i)|
  {
    hide Length, Le32;
    var code := Encode(i) + rest;
    assert code[0] == Encode(i)[0] && (|Encode(i)| >= 2 ==> code[1] == Encode(i)[1]);
    assert |Encode(i)| >= 3 ==> code[2] == Encode(i)[2];
    match i
    case Pushad | Popad => PlainLength(code, 0);
    case PopEcx | PushEax | PushEdx | Ret => OneByteLengths(code);
    case CallNext | PushImm(_) | AndEaxFF => FiveByteLengths(code);
    case SubEcx(_) | AddEsp(_) | SubEsp(_) | AndEdxFFFF => OperandAndImmediateLengths(code);
    case LoadEcx | CallEcx | StoreAl(_) | LoadAl => OperandLengths(code);
  }
}
