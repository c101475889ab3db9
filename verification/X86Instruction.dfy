/** 32-bit x86 instructions as far as their length depends on them: Intel SDM Volume 2, section 2.1, with the
    opcode classes of the tables in ld32.c. */
module X86Instruction {
  import opened Bits
  import opened Options

  // ---- Opcode classes ----

  predicate IsPrefix(v: byte) { v in {0x26, 0x2e, 0x36, 0x3e} || 0x64 <= v <= 0x67 || 0xf2 <= v <= 0xf3 || v == 0xf0 }

  /** One-byte opcodes with a ModRM byte. */
  predicate HasModRm1(v: byte) {
    || (v < 0x40 && v % 8 < 4) || 0x62 <= v <= 0x63 || v == 0x69 || v == 0x6b || 0x80 <= v <= 0x8f
    || 0xc0 <= v <= 0xc1 || 0xc4 <= v <= 0xc7 || 0xd0 <= v <= 0xd3 || 0xd8 <= v <= 0xdf || 0xf6 <= v <= 0xf7
    || 0xfe <= v
  }

  /** Opcodes behind 0F with a ModRM byte. */
  predicate HasModRm2(v: byte) {
    || v <= 0x03 || v == 0x0d || 0x10 <= v <= 0x23 || 0x28 <= v <= 0x2f || v == 0x38 || v == 0x3a || 0x40 <= v <= 0x76
    || 0x78 <= v <= 0x7f || 0x90 <= v <= 0x9f || 0xa3 <= v <= 0xa5 || 0xab <= v <= 0xb8 || 0xba <= v <= 0xc7
    || 0xd0 <= v <= 0xfe
  }

  /** One-byte opcodes with an 8-bit immediate. */
  predicate HasImm8(v: byte) {
    || (v < 0x40 && v % 8 == 4) || 0x6a <= v <= 0x6b || 0x70 <= v <= 0x80 || 0x82 <= v <= 0x83 || v == 0xa8
    || 0xb0 <= v <= 0xb7 || 0xc0 <= v <= 0xc1 || v == 0xc6 || v == 0xc8 || v == 0xcd || 0xd4 <= v <= 0xd5
    || 0xe0 <= v <= 0xe7 || v == 0xeb
  }

  /** One-byte opcodes with an immediate of the operand size. */
  predicate HasImmZ(v: byte) {
    || (v < 0x40 && v % 8 == 5) || 0x68 <= v <= 0x69 || v == 0x81 || v == 0x9a || v == 0xa9 || 0xb8 <= v <= 0xbf
    || v == 0xc7 || 0xe8 <= v <= 0xea
  }

  /** One-byte opcodes with a 16-bit immediate or a segment selector. */
  predicate HasImm16(v: byte) { v in {0x9a, 0xc2, 0xc8, 0xca, 0xea} }

  /** Opcodes behind 0F with an 8-bit immediate. */
  predicate HasImm8Behind0F(v: byte) {
    v == 0x3a || 0x70 <= v <= 0x73 || v == 0xa4 || v == 0xac || v == 0xba || v == 0xc2 || 0xc4 <= v <= 0xc6
  }

  // ---- Instructions ----

  /** Behind 0F, the opcodes 38 and 3A introduce a third opcode byte. */
  datatype Opcode = One(op: byte) | Two(op: byte) | Three(escape: byte, op: byte)

  /** Everything in front of displacement and immediate. */
  datatype Head = Head(prefixes: seq<byte>, opcode: Opcode, modrm: Option<byte>, sib: Option<byte>)

  function OperandSize(prefixes: seq<byte>): nat { if 0x66 in prefixes then 2 else 4 }

  function AddressSize(prefixes: seq<byte>): nat { if 0x67 in prefixes then 2 else 4 }

  predicate IsOpcode(o: Opcode) {
    match o
    case One(op) => !IsPrefix(op) && op != 0x0f
    case Two(op) => op != 0x38 && op != 0x3a
    case Three(m, _) => m == 0x38 || m == 0x3a
  }

  predicate HasModRm(o: Opcode) {
    match o
    case One(op) => HasModRm1(op)
    case Two(op) => HasModRm2(op)
    case Three(_, _) => true
  }

  /** The addressing mode; moves to and from control registers (0F 20 to 0F 23) ignore it. */
  function Mod(o: Opcode, modrm: byte): nat {
    if o.Two? && 0x20 <= o.op <= 0x23 then 3 else modrm as nat / 64
  }

  /** In 32-bit addressing r/m 100 stands for a SIB byte. */
  predicate HasSib(h: Head) {
    h.modrm.Some? && AddressSize(h.prefixes) == 4 && Mod(h.opcode, h.modrm.value) != 3 && h.modrm.value % 8 == 4
  }

  predicate Formed(h: Head) {
    && (forall p :: p in h.prefixes ==> IsPrefix(p))
    && IsOpcode(h.opcode) && h.modrm.Some? == HasModRm(h.opcode) && h.sib.Some? == HasSib(h)
  }

  /** SDM Volume 2, tables 2-1 to 2-3. */
  function DisplacementSize(h: Head): nat {
    match h.modrm
    case None => if h.opcode.One? && 0xa0 <= h.opcode.op <= 0xa3 then AddressSize(h.prefixes) else 0
    case Some(modrm) =>
      match Mod(h.opcode, modrm)
      case 0 =>
        if AddressSize(h.prefixes) == 2 then (if modrm % 8 == 6 then 2 else 0)
        else if modrm % 8 == 5 then 4
        else if h.sib.Some? && h.sib.value % 8 == 5 then 4
        else 0
      case 1 => 1
      case 2 => AddressSize(h.prefixes)
      case _ => 0
  }

  function ImmediateSize(h: Head): nat {
    var z := OperandSize(h.prefixes);
    match h.opcode
    case One(op) =>
      (if HasImm8(op) then 1 else if HasImmZ(op) then z else 0) + (if HasImm16(op) then 2 else 0)
      + if (op == 0xf6 || op == 0xf7) && h.modrm.Some? && h.modrm.value / 16 % 4 == 0
        then (if op == 0xf6 then 1 else z) else 0
    case Two(op) => if HasImm8Behind0F(op) then 1 else if 0x80 <= op <= 0x8f then z else 0
    case Three(m, _) => if m == 0x3a then 1 else 0
  }

  function TailSize(h: Head): nat { DisplacementSize(h) + ImmediateSize(h) }

  function OpcodeBytes(o: Opcode): seq<byte> {
    match o
    case One(op) => [op]
    case Two(op) => [0x0f, op]
    case Three(m, op) => [0x0f, m, op]
  }

  function Bytes(b: Option<byte>): seq<byte> { if b.Some? then [b.value] else [] }

  function HeadBytes(h: Head): seq<byte> { h.prefixes + OpcodeBytes(h.opcode) + Bytes(h.modrm) + Bytes(h.sib) }

  function Size(h: Head): nat { |HeadBytes(h)| + TailSize(h) }

  /** The bytes that the length disassembler counts against its limit: all of the head but a third opcode byte. */
  function Counted(h: Head): nat { |HeadBytes(h)| - if h.opcode.Three? then 1 else 0 }

  // ---- Taking a head off a byte string ----

  function PrefixCount(code: seq<byte>): (n: nat)
    ensures n <= |code|
  {
    if code != [] && IsPrefix(code[0]) then 1 + PrefixCount(code[1..]) else 0
  }

  function OpcodeAt(code: seq<byte>): Option<Opcode> {
    if code == [] then None
    else if code[0] != 0x0f then Some(One(code[0]))
    else if |code| < 2 then None
    else if code[1] != 0x38 && code[1] != 0x3a then Some(Two(code[1]))
    else if |code| < 3 then None
    else Some(Three(code[1], code[2]))
  }

  /** ModRM and SIB behind the opcode, if they are there. */
  function OperandsAt(prefixes: seq<byte>, o: Opcode, rest: seq<byte>): Option<Head> {
    if !HasModRm(o) then Some(Head(prefixes, o, None, None))
    else if rest == [] then None
    else
      var h := Head(prefixes, o, Some(rest[0]), None);
      if !HasSib(h) then Some(h)
      else if |rest| < 2 then None
      else Some(h.(sib := Some(rest[1])))
  }

  /** The head that the bytes start with, if they reach far enough. */
  function HeadOf(code: seq<byte>): Option<Head> {
    var k := PrefixCount(code);
    match OpcodeAt(code[k..])
    case None => None
    case Some(o) => OperandsAt(code[..k], o, code[k + |OpcodeBytes(o)|..])
  }

  // ---- Both directions ----

  lemma {:induction false} PrefixCountIs(code: seq<byte>)
    ensures forall i :: 0 <= i < PrefixCount(code) ==> IsPrefix(code[i])
    ensures PrefixCount(code) < |code| ==> !IsPrefix(code[PrefixCount(code)])
  {
    hide IsPrefix;
    if code != [] && IsPrefix(code[0]) {
      PrefixCountIs(code[1..]);
      assert forall i :: 0 < i < PrefixCount(code) ==> code[i] == code[1..][i - 1];
    }
  }

  lemma {:induction false} PrefixesCounted(prefixes: seq<byte>, rest: seq<byte>)
    requires (forall p :: p in prefixes ==> IsPrefix(p)) && rest != [] && !IsPrefix(rest[0])
    ensures PrefixCount(prefixes + rest) == |prefixes|
  {
    hide IsPrefix;
    if prefixes != [] {
      PrefixesCounted(prefixes[1..], rest);
      assert (prefixes + rest)[1..] == prefixes[1..] + rest;
    } else {
      assert prefixes + rest == rest;
    }
  }

  lemma OpcodeRoundTrip(o: Opcode, rest: seq<byte>)
    requires IsOpcode(o)
    ensures OpcodeAt(OpcodeBytes(o) + rest) == Some(o) && (OpcodeBytes(o) + rest)[|OpcodeBytes(o)|..] == rest
    ensures OpcodeBytes(o) != [] && !IsPrefix((OpcodeBytes(o) + rest)[0])
  {
    hide HasModRm;
  }

  lemma OperandsRoundTrip(h: Head, rest: seq<byte>)
    requires Formed(h)
    ensures OperandsAt(h.prefixes, h.opcode, Bytes(h.modrm) + Bytes(h.sib) + rest) == Some(h)
  {
    hide HasModRm, IsPrefix, Mod, IsOpcode;
  }

  /** What is written is read back: an instruction is delimited by its own bytes. */
  lemma HeadRoundTrip(h: Head, rest: seq<byte>)
    requires Formed(h)
    ensures HeadOf(HeadBytes(h) + rest) == Some(h)
  {
    hide HasModRm, IsPrefix, Mod, OperandsAt, OpcodeAt, OpcodeBytes, Bytes, HasSib, PrefixCount, IsOpcode;
    var operands := Bytes(h.modrm) + Bytes(h.sib) + rest;
    var behind := OpcodeBytes(h.opcode) + operands;
    var code := HeadBytes(h) + rest;
    assert code == h.prefixes + behind;
    OpcodeRoundTrip(h.opcode, operands);
    PrefixesCounted(h.prefixes, behind);
    OperandsRoundTrip(h, rest);
    var k := |h.prefixes|;
    assert code[..k] == h.prefixes && code[k..] == behind;
    assert code[k + |OpcodeBytes(h.opcode)|..] == behind[|OpcodeBytes(h.opcode)|..];
  }

  lemma OpcodeIsThere(code: seq<byte>)
    requires OpcodeAt(code).Some?
    ensures var o := OpcodeAt(code).value;
            && code != [] && OpcodeBytes(o) <= code
            && (o.One? ==> o.op == code[0] && o.op != 0x0f) && (!o.One? ==> IsOpcode(o))
  {
    hide IsPrefix;
  }

  lemma OperandsAreThere(prefixes: seq<byte>, o: Opcode, rest: seq<byte>)
    requires OperandsAt(prefixes, o, rest).Some?
    ensures var h := OperandsAt(prefixes, o, rest).value;
            && h.prefixes == prefixes && h.opcode == o && h.modrm.Some? == HasModRm(o) && h.sib.Some? == HasSib(h)
            && Bytes(h.modrm) + Bytes(h.sib) <= rest
  {
    hide HasModRm, Mod;
  }

  /** What is read is well formed and is what stands there. */
  lemma HeadIsThere(code: seq<byte>)
    requires HeadOf(code).Some?
    ensures var h := HeadOf(code).value; Formed(h) && HeadBytes(h) <= code
  {
    hide HasModRm, IsPrefix, Mod, OperandsAt, OpcodeAt, OpcodeBytes, Bytes, HasSib, PrefixCount;
    PrefixCountIs(code);
    var k := PrefixCount(code);
    OpcodeIsThere(code[k..]);
    var o := OpcodeAt(code[k..]).value;
    var j := k + |OpcodeBytes(o)|;
    OperandsAreThere(code[..k], o, code[j..]);
    var h := HeadOf(code).value;
    var b := Bytes(h.modrm) + Bytes(h.sib);
    assert HeadBytes(h) == code[..k] + OpcodeBytes(o) + b;
    assert code == code[..k] + code[k..];
    assert code[k..] == OpcodeBytes(o) + code[j..];
  }
}
