/** length_disasm: how long is the instruction at the start of a buffer? */
module X86Length {
  import opened Bits
  import opened Options
  import opened X86Instruction

  /** The size of the instruction, or -1 if its counted bytes exceed the limit. */
  function Length(code: seq<byte>, maxLength: nat): int {
    match HeadOf(code)
    case None => -1
    case Some(h) => if Counted(h) <= maxLength then Size(h) else -1
  }

  lemma {:induction false} PrefixCountReaches(code: seq<byte>, i: nat)
    requires i <= |code| && forall j :: 0 <= j < i ==> IsPrefix(code[j])
    ensures PrefixCount(code) >= i
    ensures i < |code| && !IsPrefix(code[i]) ==> PrefixCount(code) == i
  {
    hide IsPrefix;
    if i > 0 {
      PrefixCountReaches(code[1..], i - 1);
    }
  }

  lemma TooManyPrefixes(code: seq<byte>, n: nat)
    requires n <= |code| && forall j :: 0 <= j < n ==> IsPrefix(code[j])
    ensures Length(code, n) == -1
  {
    hide IsPrefix, HasModRm1, HasModRm2, Mod, TailSize;
    PrefixCountReaches(code, n);
  }

  lemma SizePrefixes()
    ensures IsPrefix(0x66) && IsPrefix(0x67) && !IsPrefix(0x0f)
  {
  }

  lemma SpecialOpcodes(op: byte)
    ensures op == 0xf6 || op == 0xf7 ==> HasModRm1(op)
    ensures 0xa0 <= op <= 0xa3 ==> !HasModRm1(op)
    ensures op == 0x38 || op == 0x3a ==> HasModRm2(op) && HasImm8Behind0F(op) == (op == 0x3a)
  {
  }

  /** `k` prefixes, then an opcode that is not complete within the limit. */
  lemma NoOpcode(code: seq<byte>, k: nat, maxLength: nat)
    requires k == PrefixCount(code) && k + 1 == maxLength < |code| && code[k] == 0x0f
    ensures Length(code, maxLength) == -1
  {
    hide HasModRm1, HasModRm2, Mod, TailSize, IsPrefix;
  }

  /** Prefixes and opcode have been read. */
  predicate AtOpcode(code: seq<byte>, k: nat, o: Opcode) {
    k == PrefixCount(code) && OpcodeAt(code[k..]) == Some(o)
  }

  function HeadWith(code: seq<byte>, k: nat, o: Opcode, modrm: Option<byte>, sib: Option<byte>): Head
    requires k <= |code|
  {
    Head(code[..k], o, modrm, sib)
  }

  /** No ModRM byte. */
  lemma PlainHead(code: seq<byte>, k: nat, o: Opcode)
    requires k <= |code| && AtOpcode(code, k, o) && !HasModRm(o)
    ensures HeadOf(code) == Some(HeadWith(code, k, o, None, None))
  {
    hide HasModRm1, HasModRm2, IsPrefix;
  }

  /** A ModRM byte without SIB. */
  lemma ModRmHead(code: seq<byte>, k: nat, o: Opcode)
    requires k <= |code| && AtOpcode(code, k, o) && HasModRm(o)
    ensures var j := k + |OpcodeBytes(o)|;
            j < |code| ==>
              var h := HeadWith(code, k, o, Some(code[j]), None);
              && (!HasSib(h) ==> HeadOf(code) == Some(h))
              && (HasSib(h) ==> HeadOf(code) == if j + 1 < |code| then Some(h.(sib := Some(code[j + 1]))) else None)
    ensures HeadOf(code).Some? ==>
              var h := HeadOf(code).value;
              Counted(h) == k + |OpcodeBytes(o)| + (if h.sib.Some? then 2 else 1) - if o.Three? then 1 else 0
  {
    hide HasModRm1, HasModRm2, IsPrefix;
  }

  /** The do-while loop over prefixes and the first byte that is none. */
  method SkipPrefixes(code: seq<byte>, maxLength0: nat)
    returns (ok: bool, op: byte, opcode: nat, maxLength: nat, ddef: nat, mdef: nat)
    requires |code| > maxLength0
    ensures !ok ==> Length(code, maxLength0) == -1
    ensures ok ==> 0 < opcode && opcode + maxLength == maxLength0 && op == code[opcode - 1]
    ensures ok ==> !IsPrefix(op) && PrefixCount(code) == opcode - 1
    ensures ok ==> ddef == OperandSize(code[..opcode - 1]) && mdef == AddressSize(code[..opcode - 1])
    ensures mdef == 2 || mdef == 4
  {
    hide IsPrefix, HasModRm1, HasModRm2, HasImm8, HasImmZ, HasImm16, HasImm8Behind0F;
    opcode, maxLength, ddef, mdef, op := 0, maxLength0, 4, 4, 0;
    var prefix := true;
    while prefix
      invariant opcode + maxLength == maxLength0
      invariant prefix ==> forall j :: 0 <= j < opcode ==> IsPrefix(code[j])
      invariant prefix ==> ddef == OperandSize(code[..opcode]) && mdef == AddressSize(code[..opcode])
      invariant !prefix ==> opcode > 0 && op == code[opcode - 1] && !IsPrefix(op) && PrefixCount(code) == opcode - 1
      invariant !prefix ==> ddef == OperandSize(code[..opcode - 1]) && mdef == AddressSize(code[..opcode - 1])
      decreases prefix, maxLength
    {
      if maxLength < 1 {
        TooManyPrefixes(code, maxLength0);
        ok := false;
        return;
      }
      op := code[opcode];
      PrefixCountReaches(code, opcode);
      SizePrefixes();
      assert code[..opcode + 1] == code[..opcode] + [op];
      opcode, maxLength := opcode + 1, maxLength - 1;
      if op == 0x66 {
        ddef := 2;
      }
      if op == 0x67 {
        mdef := 2;
      }
      prefix := IsPrefix(op);
    }
    ok := true;
  }

  /** ModRM byte and SIB byte; `h` is the head up to the ModRM byte. */
  method SkipModRm(code: seq<byte>, opcode0: nat, maxLength0: nat, crdr: bool, mdef: nat, ghost h: Head)
    returns (ok: bool, opcode: nat, msize: nat)
    requires 0 < maxLength0 && opcode0 + maxLength0 <= |code|
    requires h.modrm == Some(code[opcode0]) && h.sib.None? && mdef == AddressSize(h.prefixes)
    requires crdr == (h.opcode.Two? && 0x20 <= h.opcode.op <= 0x23)
    ensures ok == (HasSib(h) ==> maxLength0 >= 2)
    ensures ok ==> opcode == opcode0 + if HasSib(h) then 2 else 1
    ensures ok ==> msize == DisplacementSize(h.(sib := if HasSib(h) then Some(code[opcode0 + 1]) else None))
  {
    var maxLength := maxLength0;
    opcode, msize := opcode0, 0;
    var modrm := code[opcode];
    opcode, maxLength := opcode + 1, maxLength - 1;
    var mod := if crdr then 3 else modrm / 64;
    if mod != 3 {
      var rm := modrm % 8;
      if mod == 1 {
        msize := msize + 1;
      }
      if mod == 2 {
        msize := msize + mdef;
      }
      if mdef == 2 {
        if mod == 0 && rm == 6 {
          msize := msize + 2;
        }
      } else {
        if rm == 4 {
          if maxLength < 1 {
            ok := false;
            return;
          }
          rm := code[opcode] % 8;
          opcode, maxLength := opcode + 1, maxLength - 1;
        }
        if rm == 5 && mod == 0 {
          msize := msize + 4;
        }
      }
    }
    ok := true;
  }

  /** The classes of a one-byte opcode; `next` is the byte behind it. */
  method OneByteOpcode(op: byte, next: byte, ddef: nat, mdef: nat, ghost h: Head)
    returns (flag: bool, msize: nat, dsize: nat)
    requires h.opcode == One(op) && ddef == OperandSize(h.prefixes) && mdef == AddressSize(h.prefixes)
    requires h.modrm == if HasModRm1(op) then Some(next) else None
    ensures flag == HasModRm1(op) && dsize == ImmediateSize(h)
    ensures msize == if flag then 0 else DisplacementSize(h)
  {
    hide IsPrefix, HasModRm1, HasImm8, HasImmZ, HasImm16, OperandSize, AddressSize;
    SpecialOpcodes(op);
    msize, dsize := 0, 0;
    flag := HasModRm1(op);
    if HasImm8(op) {
      dsize := 1;
    } else if HasImmZ(op) {
      dsize := ddef;
    }
    if HasImm16(op) {
      dsize := dsize + 2;
    }
    if (op == 0xf6 || op == 0xf7) && next / 16 % 4 == 0 {
      dsize := dsize + if op % 2 == 1 then ddef else 1;
    }
    if 0xa0 <= op <= 0xa3 {
      msize := mdef;
    }
  }

  /** The classes of an opcode behind 0F. */
  method TwoByteOpcode(op: byte, third: byte, ddef: nat, ghost h: Head)
    returns (flag: bool, crdr: bool, skip: nat, dsize: nat)
    requires ddef == OperandSize(h.prefixes) && h.opcode == if op == 0x38 || op == 0x3a then Three(op, third) else Two(op)
    ensures flag == HasModRm(h.opcode) && dsize == ImmediateSize(h)
    ensures skip == (if h.opcode.Three? then 1 else 0) && crdr == (h.opcode.Two? && 0x20 <= op <= 0x23)
  {
    hide HasModRm2, HasImm8Behind0F, OperandSize;
    SpecialOpcodes(op);
    dsize, skip, crdr := 0, 0, false;
    flag := HasModRm2(op);
    if HasImm8Behind0F(op) {
      dsize := 1;
    } else if 0x80 <= op <= 0x8f {
      dsize := ddef;
    }
    if 0x20 <= op <= 0x23 {
      crdr := true;
    }
    if op == 0x38 || op == 0x3a {
      skip := 1;
    }
  }

  /** The end of length_disasm: ModRM, then the sum. `o` is the opcode behind `k` prefixes. */
  method AddOperands(code: seq<byte>, opcode0: nat, maxLength: nat, flag: bool, crdr: bool, msize0: nat, dsize: nat,
                     mdef: nat,
                     ghost k: nat, ghost o: Opcode, ghost maxLength0: nat) returns (len: int)
    requires opcode0 + maxLength == maxLength0 + (if o.Three? then 1 else 0) && maxLength0 < |code|
    requires k <= |code| && AtOpcode(code, k, o) && opcode0 == k + |OpcodeBytes(o)| && mdef == AddressSize(code[..k])
    requires flag == HasModRm(o) && crdr == (o.Two? && 0x20 <= o.op <= 0x23)
    requires flag ==> msize0 == 0
    requires flag && opcode0 < |code| ==> dsize == ImmediateSize(HeadWith(code, k, o, Some(code[opcode0]), None))
    requires !flag ==> msize0 == DisplacementSize(HeadWith(code, k, o, None, None))
    requires !flag ==> dsize == ImmediateSize(HeadWith(code, k, o, None, None))
    ensures len == Length(code, maxLength0)
  {
    hide HasModRm, AddressSize, OperandSize, Mod, HasSib, HasImm8, HasImmZ, HasImm16, HasImm8Behind0F, HeadOf,
         AtOpcode, DisplacementSize;
    var opcode, msize := opcode0, msize0;
    if flag {
      ModRmHead(code, k, o);
      if maxLength < 1 {
        return -1;
      }
      var ok;
      ok, opcode, msize := SkipModRm(code, opcode, maxLength, crdr, mdef, HeadWith(code, k, o, Some(code[opcode]), None));
      if !ok {
        return -1;
      }
    } else {
      PlainHead(code, k, o);
    }
    return opcode + msize + dsize;
  }

  /** length_disasm. It looks at no more than one byte beyond the limit. */
  method LengthDisasm(code: seq<byte>, maxLength0: nat) returns (len: int)
    requires |code| > maxLength0
    ensures len == Length(code, maxLength0)
  {
    hide IsPrefix, HasModRm1, HasModRm2, OperandSize, AddressSize, PrefixCount, HasImm8, HasImmZ, HasImm16,
         HasImm8Behind0F, Length;
    var flag, crdr := false, false;
    var msize, dsize := 0, 0;
    var ok, op, opcode, maxLength, ddef, mdef := SkipPrefixes(code, maxLength0);
    if !ok {
      return -1;
    }
    ghost var k := opcode - 1;
    ghost var o := One(op);
    if op == 0x0f {
      if maxLength < 1 {
        NoOpcode(code, k, maxLength0);
        return -1;
      }
      op := code[opcode];
      opcode, maxLength := opcode + 1, maxLength - 1;
      o := if op == 0x38 || op == 0x3a then Three(op, code[opcode]) else Two(op);
      var skip;
      flag, crdr, skip, dsize := TwoByteOpcode(op, code[opcode], ddef, HeadWith(code, k, o, None, None));
      opcode := opcode + skip;
    } else {
      flag, msize, dsize := OneByteOpcode(op, code[opcode], ddef, mdef,
        HeadWith(code, k, o, if HasModRm1(op) then Some(code[opcode]) else None, None));
    }
    len := AddOperands(code, opcode, maxLength, flag, crdr, msize, dsize, mdef, k, o, maxLength0);
  }

  // ---- What the length means ----

  /** Self-delimiting: whatever follows an instruction, its length is found, given enough budget, and only then. */
  lemma SelfDelimiting(h: Head, tail: seq<byte>, rest: seq<byte>, maxLength: nat)
    requires Formed(h) && |tail| == TailSize(h)
    ensures Length(HeadBytes(h) + tail + rest, maxLength) == if Counted(h) <= maxLength then |HeadBytes(h) + tail| else -1
  {
    hide HeadOf, HeadBytes, TailSize, Counted;
    assert HeadBytes(h) + tail + rest == HeadBytes(h) + (tail + rest);
    HeadRoundTrip(h, tail + rest);
  }

  /** No instruction is the beginning of another one, and none can be read in two ways. */
  lemma OneReading(g: Head, h: Head, r: seq<byte>, s: seq<byte>)
    requires Formed(g) && Formed(h) && HeadBytes(g) + r == HeadBytes(h) + s
    ensures g == h
  {
    hide HeadOf, HeadBytes;
    HeadRoundTrip(g, r);
    HeadRoundTrip(h, s);
  }

  /** A length is the length of a well-formed instruction that stands at the start; it is at least one. */
  lemma LengthIsReal(code: seq<byte>, maxLength: nat)
    requires Length(code, maxLength) != -1
    ensures HeadOf(code).Some?
    ensures var h := HeadOf(code).value;
            Formed(h) && HeadBytes(h) <= code && Counted(h) <= maxLength && Length(code, maxLength) == Size(h) >= 1
  {
    hide HeadOf, TailSize, Formed;
    HeadIsThere(code);
  }

  /** A larger limit never changes a length that has been found. */
  lemma LimitOnlyRefuses(code: seq<byte>, n: nat, m: nat)
    requires n <= m && Length(code, n) != -1
    ensures Length(code, m) == Length(code, n)
  {
  }

  /** The length depends on the instruction's own bytes only. */
  lemma OwnBytesDecide(code: seq<byte>, other: seq<byte>, n: nat)
    requires var l := Length(code, n); 0 <= l <= |code| && l <= |other| && code[..l] == other[..l]
    ensures Length(other, n) == Length(code, n)
  {
    hide HeadOf, HeadBytes, TailSize, Formed, Counted;
    LengthIsReal(code, n);
    var h := HeadOf(code).value;
    var b := HeadBytes(h);
    assert b == code[..|b|] == code[..Size(h)][..|b|] == other[..Size(h)][..|b|] == other[..|b|];
    assert other == b + other[|b|..];
    HeadRoundTrip(h, other[|b|..]);
  }

  // ---- Sizes ----

  /** Displacement and immediate together: never more than eight bytes, five after a three-byte opcode. */
  lemma TailBound(h: Head)
    requires Formed(h)
    ensures TailSize(h) <= 8 && (h.opcode.Three? ==> TailSize(h) <= 5)
  {
    if h.opcode.One? { LongImmediates(h.opcode.op); }
    hide IsPrefix, HasModRm1, HasModRm2, HasImm8, HasImmZ, HasImm16, HasImm8Behind0F;
  }

  lemma LongImmediates(op: byte)
    ensures HasImm16(op) ==> !HasModRm1(op) && !(0xa0 <= op <= 0xa3)
    ensures op == 0xf6 || op == 0xf7 ==> !HasImm8(op) && !HasImmZ(op) && !HasImm16(op)
  {
  }

  /** The bound is reached: 81 /0 with SIB and two four-byte fields. */
  lemma TailBoundIsTight()
    ensures exists h :: Formed(h) && TailSize(h) == 8
  {
    var h := Head([], One(0x81), Some(0x84), Some(0));
    assert Formed(h) && TailSize(h) == 8;
  }
}
