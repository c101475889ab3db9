/** The two AVR routines that compute the CRC, register by register. In both, the register pair
    resCrcH:resCrcL is the bit sequence `resCrcL + resCrcH`. */
module Crc16Asm {
  import opened Bits
  import opened Crc16
  import opened Avr

  // ---- The small routine ----

  /** The bytes of 0xA001: 0x01 and 0xA0. */
  const POLY_L: Reg := [true, false, false, false, false, false, false, false]
  const POLY_H: Reg := [false, false, false, false, false, true, false, true]

  /** Rotating the complemented register to the right with the carry flag set complements the shifted
      register, once the polynomial is added when the bit that left the pair was 0. */
  lemma ComplementShift(h: Reg, l: Reg, s: Word)
    requires l + h == Not(s)
    ensures var h1, l1 := h[1..] + [true], l[1..] + [h[0]];
            (if l[0] then l1 + h1 else Xor(l1, POLY_L) + Xor(h1, POLY_H)) == Not(StepBit(s, false))
  {
    var h1, l1 := h[1..] + [true], l[1..] + [h[0]];
    var a := if l[0] then l1 + h1 else Xor(l1, POLY_L) + Xor(h1, POLY_H);
    var r, t := l + h, Not(StepBit(s, false));
    assert forall i :: 0 <= i < 16 ==> r[i] == !s[i];
    assert forall i :: 0 <= i < 15 ==> (l1 + h1)[i] == r[i + 1];
    assert forall i :: 0 <= i < 16 ==> a[i] == t[i];
  }

  /** One turn of the bit loop up to `usbCrcNoXor`. */
  method ShiftComplement(h: Reg, l: Reg, carry0: bool, ghost s: Word) returns (resCrcH: Reg, resCrcL: Reg)
    requires carry0 && l + h == Not(s)
    ensures resCrcL + resCrcH == Not(StepBit(s, false))
  {
    ComplementShift(h, l, s);
    hide StepBit, Not, Xor;
    var carry := carry0;
    resCrcH, carry := Ror(h, carry);
    resCrcL, carry := Ror(l, carry);
    if !carry {
      resCrcL := Xor(resCrcL, POLY_L);
      resCrcH := Xor(resCrcH, POLY_H);
    }
  }

  /** The bit loop: entered with the carry flag set and `bitCnt` zero, it shifts the complemented
      register eight times and leaves `bitCnt` zero again. */
  method BitLoop(h: Reg, l: Reg, bitCnt0: byte, carry0: bool, ghost s0: Word)
    returns (resCrcH: Reg, resCrcL: Reg, bitCnt: byte)
    requires carry0 && bitCnt0 == 0 && l + h == Not(s0)
    ensures bitCnt == 0 && resCrcL + resCrcH == Not(Shifts(s0, 8))
  {
    hide StepBit, Not;
    resCrcH, resCrcL, bitCnt := h, l, bitCnt0;
    var carry := carry0;
    ghost var j, s := 0, s0;
    while carry
      invariant 0 <= j <= 8 && bitCnt == (if j < 8 then 32 * j else 0) && carry == (j < 8)
      invariant resCrcL + resCrcH == Not(s) && Shifts(s, 8 - j) == Shifts(s0, 8)
      decreases 8 - j
    {
      resCrcH, resCrcL := ShiftComplement(resCrcH, resCrcL, carry, s);
      bitCnt, carry := Subi(bitCnt, 224);
      j, s := j + 1, StepBit(s, false);
    }
  }

  /** Complemented register, and a length counter that is complemented and counted up to 255. */
  method UsbCrc16Slow(data: seq<byte>) returns (resCrcL: Reg, resCrcH: Reg)
    requires |data| <= 255
    ensures resCrcL + resCrcH == Crc(data)
  {
    resCrcL, resCrcH := BitsOf(0), BitsOf(0);
    var argLen: byte, bitCnt: byte, ptr := 255 - |data|, 0, 0;
    var carry: bool;
    argLen, carry := Subi(argLen, 0xFF);
    ghost var s := Seed();
    Cleared(data);
    hide BitsOf, StepBit, Not, Xor, XorLow, Shifts, Seed;
    while carry
      invariant ptr <= |data| && argLen == (if ptr < |data| then 256 - |data| + ptr else 0)
      invariant carry == (ptr < |data|) && bitCnt == 0
      invariant resCrcL + resCrcH == Not(s) && s == Register(BitStream(data[..ptr]), Seed())
      decreases |data| - ptr
    {
      var d := BitsOf(data[ptr]);
      XorNot(s, resCrcL, resCrcH, d);
      NextByte(data, ptr);
      resCrcL := Xor(resCrcL, d);
      ptr := ptr + 1;
      s := XorLow(s, d);
      resCrcH, resCrcL, bitCnt := BitLoop(resCrcH, resCrcL, bitCnt, carry, s);
      s := Shifts(s, 8);
      argLen, carry := Subi(argLen, 0xFF);
    }
    assert data[..ptr] == data;
  }

  lemma Cleared(data: seq<byte>)
    ensures BitsOf(0) + BitsOf(0) == Not(Seed())
    ensures Register(BitStream(data[..0]), Seed()) == Seed()
  {
    ZeroBits(8);
    var z := BitsOf(0) + BitsOf(0);
    assert forall i :: 0 <= i < 8 ==> z[i] == BitsOf(0)[i] && z[8 + i] == BitsOf(0)[i];
    assert forall i :: 0 <= i < 16 ==> !z[i] && Seed()[i];
  }

  lemma {:induction false} ZeroBits(n: nat)
    ensures forall i :: 0 <= i < n ==> !LowBits(0, n)[i]
  {
    if n > 0 {
      ZeroBits(n - 1);
      assert LowBits(0, n) == [false] + LowBits(0, n - 1);
    }
  }

  /** One byte exclusive-ored into the register and shifted out extends the message by that byte. */
  lemma NextByte(data: seq<byte>, ptr: nat)
    requires ptr < |data|
    ensures Shifts(XorLow(Register(BitStream(data[..ptr]), Seed()), BitsOf(data[ptr])), 8)
         == Register(BitStream(data[..ptr + 1]), Seed())
  {
    hide BitsOf, StepBit, XorLow, Seed;
    RegisterByte(data[..ptr], data[ptr], Seed());
    ShiftsAreRegister(Register(BitStream(data[..ptr]), Seed()), BitsOf(data[ptr]));
    assert data[..ptr] + [data[ptr]] == data[..ptr + 1];
  }

  lemma XorNot(s: Word, l: Reg, h: Reg, d: Reg)
    requires l + h == Not(s)
    ensures Xor(l, d) + h == Not(XorLow(s, d))
  {
    var a, b := Xor(l, d) + h, Not(XorLow(s, d));
    assert forall i :: 0 <= i < 16 ==> (l + h)[i] == !s[i];
    assert forall i :: 0 <= i < 16 ==> a[i] == b[i];
  }

  // ---- The fast routine ----

  /** 0x01 and 0xC0 */
  const ONE: Reg := [true, false, false, false, false, false, false, false]
  const TOP_TWO: Reg := [false, false, false, false, false, false, true, true]

  /** The parity of `x`: the nibbles are folded onto two bits, and adding one to their number
      leaves their exclusive or in bit 1. */
  method ParityOf(x: Reg) returns (p: Reg)
    ensures p == if Parity(x, 7) then ONE else Zeros(8)
  {
    var b, c := Swap(x), false;
    b := Xor(b, x);
    var scratch := b;
    assert scratch[0] == (x[4] != x[0]) && scratch[1] == (x[5] != x[1]);
    assert scratch[2] == (x[6] != x[2]) && scratch[3] == (x[7] != x[3]);
    b, c := Lsr(b);
    b, c := Lsr(b);
    assert b[0] == scratch[2] && b[1] == scratch[3];
    b := Xor(b, scratch);
    ghost var w := b;
    b := Inc(b);
    assert b[1] == (w[0] != w[1]) by { IncBit1(w); }
    b, c := Lsr(b);
    p := And(b, ONE);
    ParityUnrolled(x);
  }

  lemma IncBit1(w: Reg)
    ensures Inc(w)[1] == (w[0] != w[1])
  {
    assert Inc(w[1..])[0] == !w[1];
  }

  lemma ParityUnrolled(x: Reg)
    ensures Parity(x, 7) == (((x[0] != x[4]) != (x[2] != x[6])) != ((x[1] != x[5]) != (x[3] != x[7])))
  {
    assert Parity(x, 1) == (x[1] != x[0]);
    assert Parity(x, 3) == (x[3] != (x[2] != Parity(x, 1)));
    assert Parity(x, 5) == (x[5] != (x[4] != Parity(x, 3)));
  }

  /** Bit `i` of the register pair after the fast step. */
  predicate TableBit(x: Reg, h: Reg, i: nat)
    requires i < 16
  {
    var x7 := i >= 8 - 1 && i < 15 && x[i - 7];        // x << 7
    var x6 := i >= 8 - 2 && i < 14 && x[i - 6];        // x << 6
    var odd := (i == 0 || i >= 14) && Parity(x, 7);    // 0xC001
    ((i < 8 && h[i]) != x7) != (x6 != odd)
  }

  lemma ParityStep(x: Reg, h: Reg, j: nat)
    requires j < 8
    ensures Parity(x + h, j) == Parity(x, j)
  {
  }

  lemma TableBitIsShift(x: Reg, h: Reg, i: nat)
    requires i < 16
    ensures TableBit(x, h, i) == Shifts(x + h, 8)[i]
  {
    var w := x + h;
    ShiftsClosedForm(w, 8);
    hide Shifts;
    assert Shifts(w, 8)[i] == ShiftedBit(w, 8, i);
    ParityStep(x, h, 7);
    if 8 <= i <= 13 {
      assert Parity(w, i - 6) == (w[i - 6] != (w[i - 7] != Parity(w, i - 8)));
    } else if i == 14 {
      assert Parity(w, 7) == (w[7] != Parity(w, 6));
    } else if i == 7 {
      assert Parity(w, 1) == (w[1] != w[0]);
    }
  }

  lemma LowHalf(x: Reg, h: Reg, i: nat)
    requires i < 8
    ensures var p := if Parity(x, 7) then ONE else Zeros(8);
            var b1 := Zeros(8)[1..] + [x[0]];
            Xor(Xor(Xor(h, p), b1), b1[1..] + [x[1]])[i] == Shifts(x + h, 8)[i]
  {
    hide Shifts, Parity;
    TableBitIsShift(x, h, i);
    var odd := Parity(x, 7);
    var p, b1 := if odd then ONE else Zeros(8), Zeros(8)[1..] + [x[0]];
    assert p[i] == (i == 0 && odd);
    assert b1[i] == (i == 7 && x[0]);
    assert (b1[1..] + [x[1]])[i] == (i >= 6 && x[i - 6]);
    assert Xor(Xor(h, p), b1)[i] == ((h[i] != p[i]) != b1[i]);
  }

  lemma HighByte(odd: bool)
    ensures And(Neg(if odd then ONE else Zeros(8)), TOP_TWO) == if odd then TOP_TWO else Zeros(8)
  {
    if odd {
      assert Not(ONE) == [false] + Not(Zeros(7));
      assert Neg(ONE) == Not(Zeros(8));
    } else {
      assert And(Neg(Zeros(8)), TOP_TWO)[6] == false by { IncAllOnes(8); }
      assert forall i :: 0 <= i < 8 ==> !And(Neg(Zeros(8)), TOP_TWO)[i] by { IncAllOnes(8); }
    }
  }

  lemma {:induction false} IncAllOnes(n: nat)
    ensures Inc(Not(Zeros(n))) == Zeros(n)
  {
    if n > 0 {
      IncAllOnes(n - 1);
      assert Not(Zeros(n))[1..] == Not(Zeros(n - 1));
    }
  }

  lemma HighHalf(x: Reg, h: Reg, i: nat)
    requires i < 8
    ensures var p := if Parity(x, 7) then ONE else Zeros(8);
            var s1 := x[1..] + [false];
            Xor(Xor(And(Neg(p), TOP_TWO), s1), s1[1..] + [false])[i] == Shifts(x + h, 8)[8 + i]
  {
    hide Shifts, Parity, Neg, And;
    TableBitIsShift(x, h, 8 + i);
    HighByte(Parity(x, 7));
    var odd := Parity(x, 7);
    var p, s1 := if odd then ONE else Zeros(8), x[1..] + [false];
    assert And(Neg(p), TOP_TWO)[i] == (i >= 6 && odd);
    assert s1[i] == (i < 7 && x[i + 1]);
    assert (s1[1..] + [false])[i] == (i < 6 && x[i + 2]);
  }

  lemma HalvesAreShifts(x: Reg, h: Reg, p: Reg, b1: Reg, b2: Reg, s1: Reg, s2: Reg)
    requires p == if Parity(x, 7) then ONE else Zeros(8)
    requires b1 == Zeros(8)[1..] + [x[0]] && b2 == b1[1..] + [s1[0]]
    requires s1 == x[1..] + [false] && s2 == s1[1..] + [false]
    ensures Xor(Xor(Xor(h, p), b1), b2) + Xor(Xor(And(Neg(p), TOP_TWO), s1), s2) == Shifts(x + h, 8)
  {
    hide Shifts, Parity, Neg, Xor, And;
    forall i | 0 <= i < 8
      ensures Xor(Xor(Xor(h, p), b1), b2)[i] == Shifts(x + h, 8)[i]
      ensures Xor(Xor(And(Neg(p), TOP_TWO), s1), s2)[i] == Shifts(x + h, 8)[8 + i]
    {
      LowHalf(x, h, i);
      HighHalf(x, h, i);
    }
  }

  /** One byte at a time: the eight shifts as two shifted copies of `x` and a parity. */
  method TableStep(x: Reg, h: Reg) returns (resCrcL: Reg, resCrcH: Reg)
    ensures resCrcL + resCrcH == Shifts(x + h, 8)
  {
    hide Shifts, Parity, Neg, Xor, And;
    var b := ParityOf(x);
    ghost var p := b;
    var scratch, c := x, false;
    resCrcL := h;
    resCrcL := Xor(resCrcL, b);
    b := Neg(b);
    b := And(b, TOP_TWO);
    resCrcH := b;
    b := Zeros(8);
    scratch, c := Lsr(scratch);
    b, c := Ror(b, c);
    ghost var b1, s1 := b, scratch;
    resCrcH := Xor(resCrcH, scratch);
    resCrcL := Xor(resCrcL, b);
    scratch, c := Lsr(scratch);
    b, c := Ror(b, c);
    resCrcH := Xor(resCrcH, scratch);
    resCrcL := Xor(resCrcL, b);
    HalvesAreShifts(x, h, p, b1, b, s1, scratch);
  }

  method UsbCrc16Fast(data: seq<byte>) returns (resCrcL: Reg, resCrcH: Reg)
    requires |data| <= 255
    ensures resCrcL + resCrcH == Crc(data)
  {
    hide BitsOf, StepBit, Not, Xor, XorLow, Shifts, Seed;
    resCrcL, resCrcH := Com(Zeros(8)), Com(Zeros(8));
    var argLen: byte, ptr := |data|, 0;
    var carry: bool;
    Cleared(data);
    SeedPair();
    argLen, carry := Subi(argLen, 1);
    while !carry
      invariant ptr <= |data| && carry == (ptr == |data|)
      invariant argLen == (if ptr < |data| then |data| - ptr - 1 else 255)
      invariant resCrcL + resCrcH == Register(BitStream(data[..ptr]), Seed())
      decreases |data| - ptr
    {
      ghost var s := Register(BitStream(data[..ptr]), Seed());
      NextByte(data, ptr);
      XorLowPair(s, resCrcL, resCrcH, BitsOf(data[ptr]));
      resCrcL := Xor(resCrcL, BitsOf(data[ptr]));
      ptr := ptr + 1;
      resCrcL, resCrcH := TableStep(resCrcL, resCrcH);
      argLen, carry := Subi(argLen, 1);
    }
    assert data[..ptr] == data;
    NotPair(resCrcL, resCrcH);
    resCrcL, resCrcH := Com(resCrcL), Com(resCrcH);
  }

  /** `com`: one's complement. */
  function Com(r: Reg): Reg { Not(r) }

  lemma SeedPair()
    ensures Com(Zeros(8)) + Com(Zeros(8)) == Seed()
  {
  }

  lemma XorLowPair(s: Word, l: Reg, h: Reg, d: Reg)
    requires l + h == s
    ensures Xor(l, d) + h == XorLow(s, d)
  {
    assert s[..8] == l && s[8..] == h;
  }

  lemma NotPair(l: Reg, h: Reg)
    ensures Com(l) + Com(h) == Not(l + h)
  {
  }

  /** Both routines, on every block they can be given, return the same two bytes. */
  method BothRoutines(data: seq<byte>) returns (slowL: Reg, slowH: Reg, fastL: Reg, fastH: Reg)
    requires |data| <= 255
    ensures slowL == fastL && slowH == fastH
  {
    hide Crc;
    slowL, slowH := UsbCrc16Slow(data);
    fastL, fastH := UsbCrc16Fast(data);
    assert slowL == (slowL + slowH)[..8] && fastL == (fastL + fastH)[..8];
    assert slowH == (slowL + slowH)[8..] && fastH == (fastL + fastH)[8..];
  }

  /** `usbCrc16Append`: the routine leaves its pointer after the data and the two bytes are stored there. */
  method UsbCrc16Append(buf: array<byte>, data: nat, len: byte)
    requires data + len + 2 <= buf.Length
    modifies buf
    ensures var msg := old(buf[data..data + len]);
            buf[..] == old(buf[..data + len]) + [CrcLow(msg), CrcHigh(msg)] + old(buf[data + len + 2..])
  {
    hide Crc, ByteOf, CrcLow, CrcHigh;
    ghost var msg := buf[data..data + len];
    var l, h := UsbCrc16Slow(buf[data..data + len]);
    CrcBytes(msg, l, h);
    buf[data + len] := ByteOf(l);
    buf[data + len + 1] := ByteOf(h);
  }

  lemma CrcBytes(msg: seq<byte>, l: Reg, h: Reg)
    requires l + h == Crc(msg)
    ensures ByteOf(l) == CrcLow(msg) && ByteOf(h) == CrcHigh(msg)
  {
    hide Crc, ByteOf;
    assert l == (l + h)[..8] && h == (l + h)[8..];
  }
}
