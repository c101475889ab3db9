/** The two ways in which a port access reaches the adapter: the debugger handles the exception, or the worker calls
    the port functions of the injected library. */
module PortModes {
  import opened Bits
  import opened Options
  import opened X86Instruction
  import opened X86Length
  import opened X86Machine
  import X86Simulation

  // ---- The adapter ----

  /** Its answers depend on what has happened before; every access may fail. */
  datatype Device = Device(accepts: (seq<Access>, nat, byte) -> bool, answers: (seq<Access>, nat) -> Option<byte>)

  /** An open adapter; the log holds register numbers and bytes. */
  class Lpt {
    const device: Device
    var log: seq<Access>

    constructor (device: Device)
      ensures this.device == device && log == []
    {
      this.device := device;
      log := [];
    }

    method SetPort8(reg: nat, value: byte) returns (ok: bool)
      modifies this
      ensures ok == device.accepts(old(log), reg, value)
      ensures log == if ok then old(log) + [Write(reg, value)] else old(log)
    {
      ok := device.accepts(log, reg, value);
      if ok {
        log := log + [Write(reg, value)];
      }
    }

    method GetPort8(reg: nat) returns (ok: bool, value: byte)
      modifies this
      ensures ok == device.answers(old(log), reg).Some? && (ok ==> value == device.answers(old(log), reg).value)
      ensures log == if ok then old(log) + [Read(reg, value)] else old(log)
    {
      var answer := device.answers(log, reg);
      ok, value := answer.Some?, 0;
      if ok {
        value := answer.value;
        log := log + [Read(reg, value)];
      }
    }
  }

  // ---- What an access comes to ----

  /** The history afterwards, and EAX. */
  datatype Outcome = Refused | Done(log: seq<Access>, eax: nat)

  /** An access to the register `port - base` of the adapter. */
  function Access8(device: Device, log: seq<Access>, reg: nat, isOut: bool, eax: nat): Outcome {
    if isOut then
      if device.accepts(log, reg, LowByte(eax)) then Done(log + [Write(reg, LowByte(eax))], eax) else Refused
    else
      match device.answers(log, reg)
      case None => Refused
      case Some(value) => Done(log + [Read(reg, value)], SetAl(eax, value))
  }

  /** By the debugger: nothing happens on a bypassed port. */
  function Intercepted(bypass: seq<nat>, base: nat, device: Device, log: seq<Access>, port: nat, isOut: bool,
                       eax: nat): Outcome {
    if port in bypass then Done(log, eax)
    else if base <= port <= base + 4 then Access8(device, log, port - base, isOut, eax)
    else Refused
  }

  const LPT1: nat := 0x378

  /** By the worker and the library: on a bypassed port an IN sees zero. */
  function Called(bypass: seq<nat>, device: Device, log: seq<Access>, port: nat, isOut: bool, eax: nat): Outcome {
    if port in bypass then Done(log, if isOut then eax else SetAl(eax, 0))
    else if LPT1 <= port <= LPT1 + 4 then Access8(device, log, port - LPT1, isOut, eax)
    else Refused
  }

  // ---- The library ----

  /** The search loop of both port functions. */
  method IsBypassed(bypass: seq<nat>, port: nat) returns (found: bool)
    ensures found == (port in bypass)
  {
    var i := 0;
    while i < |bypass|
      invariant 0 <= i <= |bypass| && port !in bypass[..i]
    {
      if port == bypass[i] {
        return true;
      }
      i := i + 1;
    }
    assert bypass[..i] == bypass;
    return false;
  }

  /** WritePort8 of the injected library; the subtraction is one of 16-bit numbers. When it dies, so does the
      process. */
  method WritePort8(lpt: Lpt, bypass: seq<nat>, port0: nat, data: byte, ghost eax: nat) returns (alive: bool)
    requires port0 < 0x1_0000 && LowByte(eax) == data
    modifies lpt
    ensures var o := Called(bypass, lpt.device, old(lpt.log), port0, true, eax);
            alive == o.Done? && (alive ==> lpt.log == o.log && o.eax == eax)
  {
    var bypassed := IsBypassed(bypass, port0);
    if bypassed {
      return true;
    }
    var port := (port0 - LPT1) % 0x1_0000;
    if port > 4 {
      return false;
    }
    alive := lpt.SetPort8(port, data);
  }

  method ReadPort8(lpt: Lpt, bypass: seq<nat>, port0: nat, ghost eax: nat) returns (alive: bool, result: byte)
    requires port0 < 0x1_0000
    modifies lpt
    ensures var o := Called(bypass, lpt.device, old(lpt.log), port0, false, eax);
            alive == o.Done? && (alive ==> lpt.log == o.log && o.eax == SetAl(eax, result))
  {
    var bypassed := IsBypassed(bypass, port0);
    if bypassed {
      return true, 0;
    }
    var port := (port0 - LPT1) % 0x1_0000;
    if port > 4 {
      return false, 0;
    }
    alive, result := lpt.GetPort8(port);
  }

  // ---- The debugger ----

  /** A port access as DecodeIoInstruction sees it: the port, the width in bits, the direction, the length. */
  datatype IoInstruction = IoInstruction(port: nat, ioSize: nat, isOut: bool, size: nat)

  /** The ports accesses of the instruction set, IN and OUT with an immediate port or DX; a 16-bit access has one
      operand-size prefix and nothing else in front of it. */
  function IoAt(code: seq<byte>, edx: nat): Option<IoInstruction>
    requires |code| >= 3
  {
    var wide := code[0] == 0x66;
    var op := if wide then code[1] else code[0];
    var imm := if wide then code[2] else code[1];
    var k := if wide then 1 else 0;
    if !(0xe4 <= op <= 0xe7 || 0xec <= op <= 0xef) || (wide && op % 2 == 0) then None
    else Some(IoInstruction(
      if op < 0xe8 then imm as nat else edx % 0x1_0000,
      if op % 2 == 0 then 8 else if wide then 16 else 32,
      op / 2 % 2 == 1,
      k + if op < 0xe8 then 2 else 1))
  }

  /** DecodeIoInstruction: twelve comparisons. */
  method DecodeIoInstruction(code: seq<byte>, edx: nat) returns (d: Option<IoInstruction>)
    requires |code| >= 3
    ensures d == IoAt(code, edx)
  {
    var dx := edx % 0x1_0000;
    if code[0] == 0x66 && code[1] == 0xe5 { d := Some(IoInstruction(code[2] as nat, 16, false, 3)); }
    else if code[0] == 0x66 && code[1] == 0xed { d := Some(IoInstruction(dx, 16, false, 2)); }
    else if code[0] == 0x66 && code[1] == 0xe7 { d := Some(IoInstruction(code[2] as nat, 16, true, 3)); }
    else if code[0] == 0x66 && code[1] == 0xef { d := Some(IoInstruction(dx, 16, true, 2)); }
    else if code[0] == 0xe4 { d := Some(IoInstruction(code[1] as nat, 8, false, 2)); }
    else if code[0] == 0xe5 { d := Some(IoInstruction(code[1] as nat, 32, false, 2)); }
    else if code[0] == 0xec { d := Some(IoInstruction(dx, 8, false, 1)); }
    else if code[0] == 0xed { d := Some(IoInstruction(dx, 32, false, 1)); }
    else if code[0] == 0xe6 { d := Some(IoInstruction(code[1] as nat, 8, true, 2)); }
    else if code[0] == 0xe7 { d := Some(IoInstruction(code[1] as nat, 32, true, 2)); }
    else if code[0] == 0xee { d := Some(IoInstruction(dx, 8, true, 1)); }
    else if code[0] == 0xef { d := Some(IoInstruction(dx, 32, true, 1)); }
    else { d := None; }
  }

  // ---- From the instruction's side ----

  /** IN and OUT of the SDM, Volume 2: the width in bits, and the port, in the instruction or in DX. */
  datatype PortOp = PortOp(isOut: bool, width: nat, port: Option<byte>)

  predicate IsPortOp(i: PortOp) { i.width == 8 || i.width == 16 || i.width == 32 }

  /** E4 and E5 are IN with a port in the instruction, E6 and E7 OUT, EC to EF the same with DX; the odd ones are wide, by
      an operand-size prefix 16 bits instead of 32. */
  function PortOpBytes(i: PortOp): seq<byte>
    requires IsPortOp(i)
  {
    var opcode: byte := match (i.isOut, i.port.Some?)
      case (false, true) => if i.width == 8 then 0xe4 else 0xe5
      case (true, true) => if i.width == 8 then 0xe6 else 0xe7
      case (false, false) => if i.width == 8 then 0xec else 0xed
      case (true, false) => if i.width == 8 then 0xee else 0xef;
    (if i.width == 16 then [0x66] else []) + [opcode] + (if i.port.Some? then [i.port.value] else [])
  }

  /** Every port instruction, followed by anything, is decoded to itself. */
  lemma PortOpRoundTrip(i: PortOp, rest: seq<byte>, edx: nat)
    requires IsPortOp(i) && |PortOpBytes(i) + rest| >= 3
    ensures IoAt(PortOpBytes(i) + rest, edx) == Some(IoInstruction(
              if i.port.Some? then i.port.value as nat else edx % 0x1_0000, i.width, i.isOut, |PortOpBytes(i)|))
  {
    var code := PortOpBytes(i) + rest;
    assert forall k :: 0 <= k < |PortOpBytes(i)| ==> code[k] == PortOpBytes(i)[k];
  }

  /** And what is decoded is a port instruction that stands there. */
  lemma PortOpIsThere(code: seq<byte>, edx: nat) returns (i: PortOp)
    requires |code| >= 3 && IoAt(code, edx).Some?
    ensures IsPortOp(i) && PortOpBytes(i) <= code
  {
    var d := IoAt(code, edx).value;
    var k := if code[0] == 0x66 then 1 else 0;
    i := PortOp(d.isOut, d.ioSize, if code[k] < 0xe8 then Some(code[k + 1]) else None);
    var b := PortOpBytes(i);
    assert |b| <= 3 && forall j :: 0 <= j < |b| ==> b[j] == code[j];
  }

  /** The size that the debugger skips is the size that the length disassembler finds. */
  lemma IoSizeIsLength(code: seq<byte>, edx: nat)
    requires |code| >= 3 && IoAt(code, edx).Some?
    ensures Length(code, 2) == IoAt(code, edx).value.size
  {
    var wide := code[0] == 0x66;
    var op := if wide then code[1] else code[0];
    var prefixes := if wide then code[..1] else [];
    var h := Head(prefixes, One(op), None, None);
    PortOpcode(op);
    hide HasModRm1, HasImm8, HasImmZ, HasImm16, HeadOf;
    var rest := code[|HeadBytes(h)|..];
    assert HeadBytes(h) + rest == code;
    HeadRoundTrip(h, rest);
  }

  lemma PortOpcode(op: byte)
    requires 0xe4 <= op <= 0xe7 || 0xec <= op <= 0xef
    ensures !IsPrefix(op) && op != 0x0f && !HasModRm1(op) && !HasImmZ(op) && !HasImm16(op) && HasImm8(op) == (op < 0xe8)
    ensures IsPrefix(0x66)
  {
  }

  class ThreadContext {
    var r: Regs
    var eip: nat
  }

  /** ProcessIoException without use_mempatch. */
  method ProcessIoException(context: ThreadContext, lpt: Lpt, bypass: seq<nat>, base: nat, code: seq<byte>)
    returns (handled: bool)
    requires |code| == 16
    modifies context, lpt
    ensures var d := IoAt(code, old(context.r.edx));
            && (handled ==> d.Some? && context.eip == old(context.eip) + d.value.size
                            && context.r == old(context.r).(eax := context.r.eax))
            && (!handled ==> context.r == old(context.r) && context.eip == old(context.eip) && lpt.log == old(lpt.log))
            && (d.None? ==> !handled)
            && (d.Some? && d.value.ioSize != 8 ==>
                  handled == (d.value.port in bypass) && lpt.log == old(lpt.log) && context.r == old(context.r))
            && (d.Some? && d.value.ioSize == 8 ==>
                  var eax := old(context.r.eax);
                  var o := Intercepted(bypass, base, lpt.device, old(lpt.log), d.value.port, d.value.isOut, eax);
                  handled == o.Done? && (handled ==> lpt.log == o.log && context.r.eax == o.eax))
  {
    var decoded := DecodeIoInstruction(code, context.r.edx);
    if decoded.None? {
      return false;
    }
    var d := decoded.value;
    var eax := context.r.eax;
    var bypassMode := IsBypassed(bypass, d.port);
    if !bypassMode {
      if d.ioSize != 8 || d.port < base || d.port > base + 4 {
        return false;
      }
      if d.isOut {
        var ok := lpt.SetPort8(d.port - base, LowByte(eax));
        if !ok {
          return false;
        }
      } else {
        var ok, temp := lpt.GetPort8(d.port - base);
        if !ok {
          return false;
        }
        eax := SetAl(eax, temp);
      }
    }
    context.eip := context.eip + d.size;
    context.r := context.r.(eax := eax);
    return true;
  }

  // ---- The modes ----

  /** With the base address of LPT1 the two modes agree on every port, register and device history, except that on a
      bypassed port an IN keeps AL in one mode and clears it in the other. */
  lemma ModesAgree(bypass: seq<nat>, device: Device, log: seq<Access>, port: nat, isOut: bool, eax: nat)
    ensures Intercepted(bypass, LPT1, device, log, port, isOut, eax) == Called(bypass, device, log, port, isOut, eax)
            <==> (port in bypass && !isOut ==> LowByte(eax) == 0)
  {
  }

  /** An IN from a bypassed port with AL = 1: interception keeps the byte, the library clears it. */
  lemma BypassedReadDiffers(device: Device)
    ensures Intercepted([0x379], LPT1, device, [], 0x379, false, 1) != Called([0x379], device, [], 0x379, false, 1)
  {
    ModesAgree([0x379], device, [], 0x379, false, 1);
  }

  /** The library knows only LPT1: with any other base address some port is treated differently. */
  lemma OnlyLpt1Agrees(base: nat, eax: nat)
    ensures (forall device, log, port ::
               Intercepted([], base, device, log, port, true, eax) == Called([], device, log, port, true, eax))
            <==> base == LPT1
  {
    if base != LPT1 {
      var device := Device((l, r, v) => true, (l, r) => None);
      var port := if base < LPT1 then base else LPT1;
      assert Intercepted([], base, device, [], port, true, eax) != Called([], device, [], port, true, eax);
    }
  }

  /** The library as the workers see it. */
  function LibraryPorts(bypass: seq<nat>, device: Device): Ports {
    Ports(
      (log: seq<Access>, port: nat, value: byte) =>
        match Called(bypass, device, log, port, true, value as nat) { case Refused => log case Done(l, _) => l },
      (log: seq<Access>, port: nat) =>
        match Called(bypass, device, log, port, false, 0) { case Refused => log case Done(l, _) => l },
      (log: seq<Access>, port: nat) =>
        match Called(bypass, device, log, port, false, 0) { case Refused => 0 case Done(_, eax) => LowByte(eax) })
  }

  /** Patched code and interception together, from the bytes of the instruction: EE, OUT DX,AL, and EC, IN AL,DX, are
      decoded, and what the trampoline is proved to do to a thread is what the debugger does to its context when it
      handles the exception. */
  lemma PatchedEqualsIntercepted(code: seq<byte>, m: Machine, bypass: seq<nat>, device: Device)
    requires |code| >= 3 && (code[0] == 0xee || code[0] == 0xec)
    ensures var port := m.r.edx % 0x1_0000; IoAt(code, m.r.edx) == Some(IoInstruction(port, 8, code[0] == 0xee, 1))
    ensures var d := IoAt(code, m.r.edx).value; var ports := LibraryPorts(bypass, device);
            var o := Intercepted(bypass, LPT1, device, m.log, d.port, d.isOut, m.r.eax);
            o.Done? && (d.port in bypass && code[0] == 0xec ==> LowByte(m.r.eax) == 0) ==>
              (if code[0] == 0xee then X86Simulation.OutAccess(m, ports) else X86Simulation.InAccess(m, ports))
              == m.(log := o.log, r := m.r.(eax := o.eax))
  {
    var i := PortOp(code[0] == 0xee, 8, None);
    assert PortOpBytes(i) + code[1..] == code;
    PortOpRoundTrip(i, code[1..], m.r.edx);
    ModesAgree(bypass, device, m.log, m.r.edx % 0x1_0000, code[0] == 0xee, m.r.eax);
  }

  // ---- The registers, port by port ----

  /** The five ports of LPT1 are the five registers, and a write carries AL. */
  lemma LibraryWrites(bypass: seq<nat>, device: Device, log: seq<Access>, port: nat, eax: nat)
    ensures var o := Called(bypass, device, log, port, true, eax);
            if port in bypass then o == Done(log, eax)
            else if port == 0x378 || port == 0x379 || port == 0x37a || port == 0x37b || port == 0x37c then
              var reg, al := port - 0x378, (eax % 256) as byte;
              o == if device.accepts(log, reg, al) then Done(log + [Write(reg, al)], eax) else Refused
            else o == Refused
  {
  }

  /** A read changes AL only. */
  lemma LibraryReads(bypass: seq<nat>, device: Device, log: seq<Access>, port: nat, eax: nat)
    ensures var o := Called(bypass, device, log, port, false, eax);
            if port in bypass then o == Done(log, eax - eax % 256)
            else if port == 0x378 || port == 0x379 || port == 0x37a || port == 0x37b || port == 0x37c then
              var reg := port - 0x378;
              match device.answers(log, reg)
              case None => o == Refused
              case Some(b) => o == Done(log + [Read(reg, b)], eax - eax % 256 + b as nat)
            else o == Refused
  {
  }
}
