/** The opcode classes held against the formulas and the table of ld32.c. */
module X86Tables {
  import opened Bits
  import opened Avr
  import opened Options
  import opened X86Instruction
  import opened X86Length

  // ---- Masks ----

  /** `v & mask` */
  function BitAnd(v: byte, mask: byte): byte { ByteOf(And(BitsOf(v), BitsOf(mask))) }

  /** The bits of a byte, and the sum of those at which the mask has a one. */
  lemma AndIsSum(v: byte, mask: byte, m: Reg) returns (r: Reg)
    requires BitsOf(mask) == m
    ensures v as nat == Weigh(r)
    ensures BitAnd(v, mask) as nat ==
            Weight(r[0] && m[0], 1) + Weight(r[1] && m[1], 2) + Weight(r[2] && m[2], 4) + Weight(r[3] && m[3], 8)
            + Weight(r[4] && m[4], 16) + Weight(r[5] && m[5], 32) + Weight(r[6] && m[6], 64) + Weight(r[7] && m[7], 128)
  {
    hide BitsOf, ByteOf;
    r := BitsOf(v);
    ByteOfBitsOf(v);
    WeighIsValue(r);
    WeighIsValue(And(r, m));
  }

  lemma Parts(v: nat, p: nat, low: nat, high: nat)
    requires v == low + p * high && low < p
    ensures v / p == high && v % p == low
  {
    var e := v / p - high;
    Multiple(p, e);
    assert v == p * (v / p) + v % p;
    assert p * (high + e) == p * high + p * e;
  }

  lemma Multiple(p: nat, e: int)
    ensures e >= 1 ==> p * e >= p
    ensures e <= -1 ==> p * e + p <= 0
  {
  }

  lemma BitsOfE7()
    ensures BitsOf(0xe7) == [true, true, true, false, false, true, true, true]
  {
  }

  lemma MaskE7(v: byte)
    ensures BitAnd(v, 0xe7) as nat == v / 32 * 32 + v % 8
  {
    hide BitsOf, ByteOf, BitAnd;
    BitsOfE7();
    var r := AndIsSum(v, 0xe7, [true, true, true, false, false, true, true, true]);
    var a := Weight(r[0], 1) + Weight(r[1], 2) + Weight(r[2], 4);
    var b := Weight(r[3], 1) + Weight(r[4], 2);
    var c := Weight(r[5], 1) + Weight(r[6], 2) + Weight(r[7], 4);
    assert v as nat == a + 8 * b + 32 * c;
    assert BitAnd(v, 0xe7) as nat == a + 32 * c;
    SumE7(v, a, b, c);
  }

  lemma SumE7(v: nat, a: nat, b: nat, c: nat)
    requires v == a + 8 * b + 32 * c
    requires a < 8 && b < 4 && c < 8
    ensures a + 32 * c == v / 32 * 32 + v % 8
  {
    Parts(v, 8, a, b + 4 * c);
    Parts(v, 32, a + 8 * b, c);
  }

  lemma BitsOfFC()
    ensures BitsOf(0xfc) == [false, false, true, true, true, true, true, true]
  {
  }

  lemma MaskFC(v: byte)
    ensures BitAnd(v, 0xfc) as nat == v / 4 * 4
  {
    hide BitsOf, ByteOf, BitAnd;
    BitsOfFC();
    var r := AndIsSum(v, 0xfc, [false, false, true, true, true, true, true, true]);
    var a := Weight(r[0], 1) + Weight(r[1], 2);
    var b := Weight(r[2], 1) + Weight(r[3], 2) + Weight(r[4], 4) + Weight(r[5], 8) + Weight(r[6], 16) + Weight(r[7], 32);
    assert v as nat == a + 4 * b;
    assert BitAnd(v, 0xfc) as nat == 4 * b;
    SumFC(v, a, b);
  }

  lemma SumFC(v: nat, a: nat, b: nat)
    requires v == a + 4 * b
    requires a < 4 && b < 64
    ensures 4 * b == v / 4 * 4
  {
    Parts(v, 4, a, b);
  }

  lemma BitsOfFE()
    ensures BitsOf(0xfe) == [false, true, true, true, true, true, true, true]
  {
  }

  lemma MaskFE(v: byte)
    ensures BitAnd(v, 0xfe) as nat == v / 2 * 2
  {
    hide BitsOf, ByteOf, BitAnd;
    BitsOfFE();
    var r := AndIsSum(v, 0xfe, [false, true, true, true, true, true, true, true]);
    var a := Weight(r[0], 1);
    var b := Weight(r[1], 1) + Weight(r[2], 2) + Weight(r[3], 4) + Weight(r[4], 8) + Weight(r[5], 16) + Weight(r[6], 32) + Weight(r[7], 64);
    assert v as nat == a + 2 * b;
    assert BitAnd(v, 0xfe) as nat == 2 * b;
    SumFE(v, a, b);
  }

  lemma SumFE(v: nat, a: nat, b: nat)
    requires v == a + 2 * b
    requires a < 2 && b < 128
    ensures 2 * b == v / 2 * 2
  {
    Parts(v, 2, a, b);
  }

  lemma BitsOfF0()
    ensures BitsOf(0xf0) == [false, false, false, false, true, true, true, true]
  {
  }

  lemma MaskF0(v: byte)
    ensures BitAnd(v, 0xf0) as nat == v / 16 * 16
  {
    hide BitsOf, ByteOf, BitAnd;
    BitsOfF0();
    var r := AndIsSum(v, 0xf0, [false, false, false, false, true, true, true, true]);
    var a := Weight(r[0], 1) + Weight(r[1], 2) + Weight(r[2], 4) + Weight(r[3], 8);
    var b := Weight(r[4], 1) + Weight(r[5], 2) + Weight(r[6], 4) + Weight(r[7], 8);
    assert v as nat == a + 16 * b;
    assert BitAnd(v, 0xf0) as nat == 16 * b;
    SumF0(v, a, b);
  }

  lemma SumF0(v: nat, a: nat, b: nat)
    requires v == a + 16 * b
    requires a < 16 && b < 16
    ensures 16 * b == v / 16 * 16
  {
    Parts(v, 16, a, b);
  }

  lemma BitsOfF8()
    ensures BitsOf(0xf8) == [false, false, false, true, true, true, true, true]
  {
  }

  lemma MaskF8(v: byte)
    ensures BitAnd(v, 0xf8) as nat == v / 8 * 8
  {
    hide BitsOf, ByteOf, BitAnd;
    BitsOfF8();
    var r := AndIsSum(v, 0xf8, [false, false, false, true, true, true, true, true]);
    var a := Weight(r[0], 1) + Weight(r[1], 2) + Weight(r[2], 4);
    var b := Weight(r[3], 1) + Weight(r[4], 2) + Weight(r[5], 4) + Weight(r[6], 8) + Weight(r[7], 16);
    assert v as nat == a + 8 * b;
    assert BitAnd(v, 0xf8) as nat == 8 * b;
    SumF8(v, a, b);
  }

  lemma SumF8(v: nat, a: nat, b: nat)
    requires v == a + 8 * b
    requires a < 8 && b < 32
    ensures 8 * b == v / 8 * 8
  {
    Parts(v, 8, a, b);
  }

  lemma BitsOfF6()
    ensures BitsOf(0xf6) == [false, true, true, false, true, true, true, true]
  {
  }

  lemma MaskF6(v: byte)
    ensures BitAnd(v, 0xf6) as nat == v / 16 * 16 + v % 8 / 2 * 2
  {
    hide BitsOf, ByteOf, BitAnd;
    BitsOfF6();
    var r := AndIsSum(v, 0xf6, [false, true, true, false, true, true, true, true]);
    var a := Weight(r[0], 1);
    var b := Weight(r[1], 1) + Weight(r[2], 2);
    var c := Weight(r[3], 1);
    var d := Weight(r[4], 1) + Weight(r[5], 2) + Weight(r[6], 4) + Weight(r[7], 8);
    assert v as nat == a + 2 * b + 8 * c + 16 * d;
    assert BitAnd(v, 0xf6) as nat == 2 * b + 16 * d;
    SumF6(v, a, b, c, d);
  }

  lemma SumF6(v: nat, a: nat, b: nat, c: nat, d: nat)
    requires v == a + 2 * b + 8 * c + 16 * d
    requires a < 2 && b < 4 && c < 2 && d < 16
    ensures 2 * b + 16 * d == v / 16 * 16 + v % 8 / 2 * 2
  {
    Parts(v, 2, a, b + 4 * c + 8 * d);
    Parts(v, 8, a + 2 * b, c + 2 * d);
    Parts(v, 16, a + 2 * b + 8 * c, d);
    Parts(v % 8, 2, a, b);
  }

  lemma BitsOfC4()
    ensures BitsOf(0xc4) == [false, false, true, false, false, false, true, true]
  {
  }

  lemma MaskC4(v: byte)
    ensures BitAnd(v, 0xc4) as nat == v / 64 * 64 + v % 8 / 4 * 4
  {
    hide BitsOf, ByteOf, BitAnd;
    BitsOfC4();
    var r := AndIsSum(v, 0xc4, [false, false, true, false, false, false, true, true]);
    var a := Weight(r[0], 1) + Weight(r[1], 2);
    var b := Weight(r[2], 1);
    var c := Weight(r[3], 1) + Weight(r[4], 2) + Weight(r[5], 4);
    var d := Weight(r[6], 1) + Weight(r[7], 2);
    assert v as nat == a + 4 * b + 8 * c + 64 * d;
    assert BitAnd(v, 0xc4) as nat == 4 * b + 64 * d;
    SumC4(v, a, b, c, d);
  }

  lemma SumC4(v: nat, a: nat, b: nat, c: nat, d: nat)
    requires v == a + 4 * b + 8 * c + 64 * d
    requires a < 4 && b < 2 && c < 8 && d < 4
    ensures 4 * b + 64 * d == v / 64 * 64 + v % 8 / 4 * 4
  {
    Parts(v, 4, a, b + 2 * c + 16 * d);
    Parts(v, 8, a + 4 * b, c + 8 * d);
    Parts(v, 64, a + 4 * b + 8 * c, d);
    Parts(v, 8, a + 4 * b, c + 8 * d);
    Parts(v % 8, 4, a, b);
  }

  lemma BitsOfC7()
    ensures BitsOf(0xc7) == [true, true, true, false, false, false, true, true]
  {
  }

  lemma MaskC7(v: byte)
    ensures BitAnd(v, 0xc7) as nat == v / 64 * 64 + v % 8
  {
    hide BitsOf, ByteOf, BitAnd;
    BitsOfC7();
    var r := AndIsSum(v, 0xc7, [true, true, true, false, false, false, true, true]);
    var a := Weight(r[0], 1) + Weight(r[1], 2) + Weight(r[2], 4);
    var b := Weight(r[3], 1) + Weight(r[4], 2) + Weight(r[5], 4);
    var c := Weight(r[6], 1) + Weight(r[7], 2);
    assert v as nat == a + 8 * b + 64 * c;
    assert BitAnd(v, 0xc7) as nat == a + 64 * c;
    SumC7(v, a, b, c);
  }

  lemma SumC7(v: nat, a: nat, b: nat, c: nat)
    requires v == a + 8 * b + 64 * c
    requires a < 8 && b < 8 && c < 4
    ensures a + 64 * c == v / 64 * 64 + v % 8
  {
    Parts(v, 8, a, b + 8 * c);
    Parts(v, 64, a + 8 * b, c);
  }

  lemma BitsOf7E()
    ensures BitsOf(0x7e) == [false, true, true, true, true, true, true, false]
  {
  }

  lemma Mask7E(v: byte)
    ensures BitAnd(v, 0x7e) as nat == v % 128 / 2 * 2
  {
    hide BitsOf, ByteOf, BitAnd;
    BitsOf7E();
    var r := AndIsSum(v, 0x7e, [false, true, true, true, true, true, true, false]);
    var a := Weight(r[0], 1);
    var b := Weight(r[1], 1) + Weight(r[2], 2) + Weight(r[3], 4) + Weight(r[4], 8) + Weight(r[5], 16) + Weight(r[6], 32);
    var c := Weight(r[7], 1);
    assert v as nat == a + 2 * b + 128 * c;
    assert BitAnd(v, 0x7e) as nat == 2 * b;
    Sum7E(v, a, b, c);
  }

  lemma Sum7E(v: nat, a: nat, b: nat, c: nat)
    requires v == a + 2 * b + 128 * c
    requires a < 2 && b < 64 && c < 2
    ensures 2 * b == v % 128 / 2 * 2
  {
    Parts(v, 2, a, b + 64 * c);
    Parts(v, 128, a + 2 * b, c);
    Parts(v % 128, 2, a, b);
  }

  // ---- Opcode classes ----

  /** CHECK_PREFIX */
  lemma PrefixFormula(v: byte)
    ensures IsPrefix(v) <==>
              BitAnd(v, 0xe7) == 0x26 || BitAnd(v, 0xfc) == 0x64 || BitAnd(v, 0xfe) == 0xf2 || v == 0xf0
  {
    hide BitAnd;
    MaskE7(v);
    MaskFC(v);
    MaskFE(v);
  }

  /** CHECK_MODRM */
  predicate CheckModRm(v: byte) {
    BitAnd(v, 0xc4) == 0x00 || BitAnd(v, 0xf0) == 0x80 || BitAnd(v, 0xf8) == 0xd8 || BitAnd(v, 0xf6) == 0xf6 ||
    BitAnd(v, 0xfc) == 0xc4 || BitAnd(v, 0xfc) == 0xd0 || BitAnd(v, 0xfe) == 0x62 || BitAnd(v, 0xfe) == 0xc0 ||
    v == 0x69 || v == 0x6b
  }

  lemma ModRmLow(v: byte)
    requires v < 0x80
    ensures HasModRm1(v) <==> CheckModRm(v)
  {
    hide BitAnd;
    MaskC4(v);
    MaskF0(v);
    MaskF8(v);
    MaskF6(v);
    MaskFC(v);
    MaskFE(v);
  }

  lemma ModRmHigh(v: byte)
    requires v >= 0x80
    ensures HasModRm1(v) <==> CheckModRm(v)
  {
    hide BitAnd;
    MaskC4(v);
    MaskF0(v);
    MaskF8(v);
    MaskF6(v);
    MaskFC(v);
    MaskFE(v);
  }

  lemma ModRmFormula(v: byte)
    ensures HasModRm1(v) <==> CheckModRm(v)
  {
    hide HasModRm1, CheckModRm;
    if v < 0x80 {
      ModRmLow(v);
    } else {
      ModRmHigh(v);
    }
  }

  /** CHECK_DATA1 */
  lemma Data1Formula(v: byte)
    ensures HasImm8(v) <==>
              BitAnd(v, 0xf0) == 0x70 || BitAnd(v, 0xc7) == 0x04 || BitAnd(v, 0xf8) == 0xb0 || BitAnd(v, 0xf8) == 0xe0 ||
              BitAnd(v, 0xfe) == 0x6a || BitAnd(v, 0xfe) == 0x82 || BitAnd(v, 0xfe) == 0xc0 || BitAnd(v, 0xfe) == 0xd4 ||
              v == 0x80 || v == 0xa8 || v == 0xc6 || v == 0xc8 || v == 0xcd || v == 0xeb
  {
    hide BitAnd;
    MaskF0(v);
    MaskC7(v);
    MaskF8(v);
    MaskFE(v);
  }

  /** CHECK_DATA2 */
  lemma Data2Formula(v: byte)
    ensures HasImm16(v) <==> v == 0x9a || v == 0xc2 || v == 0xc8 || v == 0xca || v == 0xea
  {
  }

  /** CHECK_DATA66 */
  lemma Data66Formula(v: byte)
    ensures HasImmZ(v) <==>
              BitAnd(v, 0xc7) == 0x05 || BitAnd(v, 0xf8) == 0xb8 || BitAnd(v, 0x7e) == 0x68 ||
              v == 0x81 || v == 0x9a || v == 0xa9 || v == 0xc7 || v == 0xea
  {
    hide BitAnd;
    MaskC7(v);
    MaskF8(v);
    Mask7E(v);
  }

  /** CHECK_DATA12 */
  lemma Data12Formula(v: byte)
    ensures HasImm8Behind0F(v) <==>
              BitAnd(v, 0xfc) == 0x70 || v == 0x3a || v == 0xa4 || v == 0xac || v == 0xba || v == 0xc2 || v == 0xc4 ||
              v == 0xc5 || v == 0xc6
  {
    hide BitAnd;
    MaskFC(v);
  }

  /** CHECK_DATA662, CHECK_CRDR2 and CHECK_MEM67 */
  lemma RangeFormulas(v: byte)
    ensures 0x80 <= v <= 0x8f <==> BitAnd(v, 0xf0) == 0x80
    ensures 0x20 <= v <= 0x23 <==> BitAnd(v, 0xfc) == 0x20
    ensures 0xa0 <= v <= 0xa3 <==> BitAnd(v, 0xfc) == 0xa0
  {
    hide BitAnd;
    MaskF0(v);
    MaskFC(v);
  }

  /** A row of sixteen bits of a table. */
  predicate Row(text: string, v: byte)
    requires |text| == 16
  {
    text[v % 16] == '1'
  }

  /** modrm2_t: sixteen rows of sixteen bits. */
  function ModRm2Row(h: nat): (text: string)
    requires h < 16
    ensures |text| == 16
  {
    match h
    case 0 => "1111000000000100"
    case 1 => "1111111111111111"
    case 2 => "1111000011111111"
    case 3 => "0000000010100000"
    case 4 => "1111111111111111"
    case 5 => "1111111111111111"
    case 6 => "1111111111111111"
    case 7 => "1111111011111111"
    case 8 => "0000000000000000"
    case 9 => "1111111111111111"
    case 10 => "0001110000011111"
    case 11 => "1111111110111111"
    case 12 => "1111111100000000"
    case 13 => "1111111111111111"
    case 14 => "1111111111111111"
    case _ => "1111111111111110"
  }

  lemma ModRm2Rows0(v: byte)
    requires 0x00 <= v <= 0x1f
    ensures HasModRm2(v) <==> Row(ModRm2Row(v / 16), v)
  {
    if v / 16 == 0 {
      assert ModRm2Row(0) == "1111000000000100";
    } else {
      assert ModRm2Row(1) == "1111111111111111";
    }
  }

  lemma ModRm2Rows2(v: byte)
    requires 0x20 <= v <= 0x3f
    ensures HasModRm2(v) <==> Row(ModRm2Row(v / 16), v)
  {
    if v / 16 == 2 {
      assert ModRm2Row(2) == "1111000011111111";
    } else {
      assert ModRm2Row(3) == "0000000010100000";
    }
  }

  lemma ModRm2Rows4(v: byte)
    requires 0x40 <= v <= 0x5f
    ensures HasModRm2(v) <==> Row(ModRm2Row(v / 16), v)
  {
    if v / 16 == 4 {
      assert ModRm2Row(4) == "1111111111111111";
    } else {
      assert ModRm2Row(5) == "1111111111111111";
    }
  }

  lemma ModRm2Rows6(v: byte)
    requires 0x60 <= v <= 0x7f
    ensures HasModRm2(v) <==> Row(ModRm2Row(v / 16), v)
  {
    if v / 16 == 6 {
      assert ModRm2Row(6) == "1111111111111111";
    } else {
      assert ModRm2Row(7) == "1111111011111111";
    }
  }

  lemma ModRm2Rows8(v: byte)
    requires 0x80 <= v <= 0x9f
    ensures HasModRm2(v) <==> Row(ModRm2Row(v / 16), v)
  {
    if v / 16 == 8 {
      assert ModRm2Row(8) == "0000000000000000";
    } else {
      assert ModRm2Row(9) == "1111111111111111";
    }
  }

  lemma ModRm2RowsA(v: byte)
    requires 0xa0 <= v <= 0xbf
    ensures HasModRm2(v) <==> Row(ModRm2Row(v / 16), v)
  {
    if v / 16 == 10 {
      assert ModRm2Row(10) == "0001110000011111";
    } else {
      assert ModRm2Row(11) == "1111111110111111";
    }
  }

  lemma ModRm2RowsC(v: byte)
    requires 0xc0 <= v <= 0xdf
    ensures HasModRm2(v) <==> Row(ModRm2Row(v / 16), v)
  {
    if v / 16 == 12 {
      assert ModRm2Row(12) == "1111111100000000";
    } else {
      assert ModRm2Row(13) == "1111111111111111";
    }
  }

  lemma ModRm2RowsE(v: byte)
    requires 0xe0 <= v <= 0xff
    ensures HasModRm2(v) <==> Row(ModRm2Row(v / 16), v)
  {
    if v / 16 == 14 {
      assert ModRm2Row(14) == "1111111111111111";
    } else {
      assert ModRm2Row(15) == "1111111111111110";
    }
  }

  /** CHECK_MODRM2 */
  lemma ModRm2Table(v: byte)
    ensures HasModRm2(v) <==> Row(ModRm2Row(v / 16), v)
  {
    hide HasModRm2, Row, ModRm2Row;
    if v < 0x20 {
      ModRm2Rows0(v);
    } else if v < 0x40 {
      ModRm2Rows2(v);
    } else if v < 0x60 {
      ModRm2Rows4(v);
    } else if v < 0x80 {
      ModRm2Rows6(v);
    } else if v < 0xa0 {
      ModRm2Rows8(v);
    } else if v < 0xc0 {
      ModRm2RowsA(v);
    } else if v < 0xe0 {
      ModRm2RowsC(v);
    } else {
      ModRm2RowsE(v);
    }
  }

  // ---- Lengths, byte by byte ----

  /** The size of the instruction whose head the bytes start with. */
  lemma LengthAt(code: seq<byte>, h: Head)
    requires Formed(h) && HeadBytes(h) <= code && Counted(h) <= 8
    ensures Length(code, 8) == |HeadBytes(h)| + TailSize(h)
  {
    hide HeadOf, HeadBytes, TailSize, Formed, Counted;
    var rest := code[|HeadBytes(h)|..];
    assert HeadBytes(h) + rest == code;
    HeadRoundTrip(h, rest);
  }

  /** An opcode alone, with `n` bytes of immediate. */
  lemma PlainLength(code: seq<byte>, n: nat)
    requires code != [] && Formed(Head([], One(code[0]), None, None))
    requires TailSize(Head([], One(code[0]), None, None)) == n
    ensures Length(code, 8) == 1 + n
  {
    hide TailSize, Formed;
    var h := Head([], One(code[0]), None, None);
    assert HeadBytes(h) == [code[0]];
    LengthAt(code, h);
  }

  /** One byte: INC, DEC, PUSH and POP of a register, NOP and exchanges, RET, LEAVE, INT3, HLT, CLI, STI, CLD. */
  lemma OneByteLengths(code: seq<byte>)
    requires code != []
    requires 0x40 <= code[0] <= 0x5f || 0x90 <= code[0] <= 0x97 || code[0] in {0xc3, 0xc9, 0xcc, 0xf4, 0xfa, 0xfb, 0xfc}
    ensures Length(code, 8) == 1
  {
    PlainLength(code, 0);
  }

  /** Two bytes: arithmetic on AL, PUSH imm8, short jumps, TEST AL, MOV to a byte register, INT, IN and OUT with a port. */
  lemma TwoByteLengths(code: seq<byte>)
    requires code != []
    requires (code[0] < 0x40 && code[0] % 8 == 4) || code[0] in {0x6a, 0xa8, 0xcd, 0xeb} || 0x70 <= code[0] <= 0x7f
             || 0xb0 <= code[0] <= 0xb7 || 0xe0 <= code[0] <= 0xe7
    ensures Length(code, 8) == 2
  {
    PlainLength(code, 1);
  }

  /** Five bytes: arithmetic on EAX, PUSH imm32, TEST EAX, MOV to a register, CALL and JMP, and MOV between the
      accumulator and an address. */
  lemma FiveByteLengths(code: seq<byte>)
    requires code != []
    requires (code[0] < 0x40 && code[0] % 8 == 5) || code[0] in {0x68, 0xa9, 0xe8, 0xe9} || 0xb8 <= code[0] <= 0xbf
             || 0xa0 <= code[0] <= 0xa3
    ensures Length(code, 8) == 5
  {
    PlainLength(code, 4);
  }

  /** RET imm16, ENTER, far CALL and JMP. */
  lemma FarLengths(code: seq<byte>)
    requires code != [] && code[0] in {0xc2, 0xca, 0xc8, 0x9a, 0xea}
    ensures Length(code, 8) == if code[0] == 0xc8 then 4 else if code[0] in {0xc2, 0xca} then 3 else 7
  {
    PlainLength(code, if code[0] == 0xc8 then 3 else if code[0] in {0xc2, 0xca} then 2 else 6);
  }

  /** ModRM without and with SIB: bytes behind the opcode, displacement included. SDM Volume 2, tables 2-2 and 2-3. */
  function AddressingBytes(modrm: byte, sib: byte): nat {
    if modrm >= 0xc0 then 1
    else if modrm % 8 == 4 then
      if modrm >= 0x80 then 6 else if modrm >= 0x40 then 3 else if sib % 8 == 5 then 6 else 2
    else if modrm >= 0x80 then 5
    else if modrm >= 0x40 then 2
    else if modrm % 8 == 5 then 5
    else 1
  }

  /** An opcode with ModRM and `n` bytes of immediate. */
  lemma AddressedLength(code: seq<byte>, n: nat)
    requires |code| >= 3 && !IsPrefix(code[0]) && code[0] != 0x0f && HasModRm1(code[0])
    requires ImmediateSize(Head([], One(code[0]), Some(code[1]), None)) == n
    ensures Length(code, 8) == 1 + AddressingBytes(code[1], code[2]) + n
  {
    hide IsPrefix, HasModRm1, HasImm8, HasImmZ, HasImm16;
    var h := Head([], One(code[0]), Some(code[1]), None);
    if HasSib(h) {
      var g := h.(sib := Some(code[2]));
      assert HeadBytes(g) == [code[0], code[1], code[2]];
      LengthAt(code, g);
    } else {
      assert HeadBytes(h) == [code[0], code[1]];
      LengthAt(code, h);
    }
  }

  /** Arithmetic and moves between registers and memory: ADD, OR, ADC, SBB, AND, SUB, XOR, CMP, TEST,
      XCHG, MOV, LEA, shifts by one and by CL, INC, DEC, CALL, JMP and PUSH of an operand, floating point. */
  lemma OperandLengths(code: seq<byte>)
    requires |code| >= 3
    requires (code[0] < 0x40 && code[0] % 8 < 4) || 0x84 <= code[0] <= 0x8f || 0xd0 <= code[0] <= 0xd3
             || 0xd8 <= code[0] <= 0xdf || code[0] in {0x62, 0x63, 0xfe, 0xff}
    ensures Length(code, 8) == 1 + AddressingBytes(code[1], code[2])
  {
    AddressedLength(code, 0);
  }

  /** The same with an immediate: 80, 83, C0, C1, C6 and 6B have one byte, 81, C7 and 69 have four. */
  lemma OperandAndImmediateLengths(code: seq<byte>)
    requires |code| >= 3 && code[0] in {0x80, 0x83, 0xc0, 0xc1, 0xc6, 0x6b, 0x81, 0xc7, 0x69}
    ensures Length(code, 8) == 1 + AddressingBytes(code[1], code[2]) + if code[0] in {0x81, 0xc7, 0x69} then 4 else 1
  {
    AddressedLength(code, if code[0] in {0x81, 0xc7, 0x69} then 4 else 1);
  }

  /** F6 and F7: only TEST, the first two of eight operations, has an immediate. */
  lemma TestLengths(code: seq<byte>)
    requires |code| >= 3 && code[0] in {0xf6, 0xf7}
    ensures Length(code, 8) == 1 + AddressingBytes(code[1], code[2])
                               + if code[1] % 64 >= 16 then 0 else if code[0] == 0xf6 then 1 else 4
  {
    AddressedLength(code, if code[1] % 64 >= 16 then 0 else if code[0] == 0xf6 then 1 else 4);
  }

  /** The most usual load: MOV r32, [r32 + disp8]. */
  lemma MovLength(reg: nat, rm: nat, disp: byte, rest: seq<byte>)
    requires reg < 8 && rm < 8 && rm != 4
    ensures Length([0x8b, 0x40 + 8 * reg + rm, disp] + rest, 8) == 3
  {
    var code := [0x8b, (0x40 + 8 * reg + rm) as byte, disp] + rest;
    assert code[0] == 0x8b && code[1] == 0x40 + 8 * reg + rm && code[2] == disp;
    OperandLengths(code);
    ModRmParts(reg, rm);
  }

  lemma ModRmParts(reg: nat, rm: nat)
    requires reg < 8 && rm < 8
    ensures (0x40 + 8 * reg + rm) % 8 == rm
  {
  }

  /** Operand-size prefix: MOV r16, imm16. Address-size prefix: MOV r32, [disp16]. */
  lemma PrefixedLengths(code: seq<byte>)
    requires |code| >= 3
    ensures code[0] == 0x66 && 0xb8 <= code[1] <= 0xbf ==> Length(code, 8) == 4
    ensures code[0] == 0x67 && code[1] == 0x8b && code[2] < 0x40 && code[2] % 8 == 6 ==> Length(code, 8) == 5
  {
    if code[0] == 0x66 && 0xb8 <= code[1] <= 0xbf {
      var h := Head([0x66], One(code[1]), None, None);
      assert HeadBytes(h) == [code[0], code[1]];
      LengthAt(code, h);
    }
    if code[0] == 0x67 && code[1] == 0x8b && code[2] < 0x40 && code[2] % 8 == 6 {
      var h := Head([0x67], One(0x8b), Some(code[2]), None);
      assert HeadBytes(h) == [code[0], code[1], code[2]];
      LengthAt(code, h);
    }
  }

  /** Behind 0F: long conditional jumps, CPUID, moves with control registers whatever the mode bits say. */
  lemma TwoByteOpcodeLengths(code: seq<byte>)
    requires |code| >= 3 && code[0] == 0x0f
    ensures 0x80 <= code[1] <= 0x8f ==> Length(code, 8) == 6
    ensures code[1] == 0xa2 ==> Length(code, 8) == 2
    ensures 0x20 <= code[1] <= 0x23 ==> Length(code, 8) == 3
  {
    if 0x80 <= code[1] <= 0x8f || code[1] == 0xa2 {
      var h := Head([], Two(code[1]), None, None);
      assert HeadBytes(h) == [code[0], code[1]];
      LengthAt(code, h);
    } else if 0x20 <= code[1] <= 0x23 {
      var h := Head([], Two(code[1]), Some(code[2]), None);
      assert HeadBytes(h) == [code[0], code[1], code[2]];
      LengthAt(code, h);
    }
  }

  /** An opcode behind 0F with ModRM and `n` bytes of immediate. */
  lemma AddressedLengthBehind0F(code: seq<byte>, n: nat)
    requires |code| >= 4 && code[0] == 0x0f && code[1] != 0x38 && code[1] != 0x3a && !(0x20 <= code[1] <= 0x23)
    requires HasModRm2(code[1]) && ImmediateSize(Head([], Two(code[1]), Some(code[2]), None)) == n
    ensures Length(code, 8) == 2 + AddressingBytes(code[2], code[3]) + n
  {
    hide HasModRm2, HasImm8Behind0F;
    var h := Head([], Two(code[1]), Some(code[2]), None);
    if HasSib(h) {
      var g := h.(sib := Some(code[3]));
      assert HeadBytes(g) == [code[0], code[1], code[2], code[3]];
      LengthAt(code, g);
    } else {
      assert HeadBytes(h) == [code[0], code[1], code[2]];
      LengthAt(code, h);
    }
  }

  /** SETcc, CMOVcc, MOVZX, MOVSX and IMUL; BT and its relatives with an immediate. */
  lemma OperandLengthsBehind0F(code: seq<byte>)
    requires |code| >= 4 && code[0] == 0x0f
    ensures 0x40 <= code[1] <= 0x4f || 0x90 <= code[1] <= 0x9f || code[1] in {0xaf, 0xb6, 0xb7, 0xbe, 0xbf} ==>
              Length(code, 8) == 2 + AddressingBytes(code[2], code[3])
    ensures code[1] == 0xba ==> Length(code, 8) == 2 + AddressingBytes(code[2], code[3]) + 1
  {
    if 0x40 <= code[1] <= 0x4f || 0x90 <= code[1] <= 0x9f || code[1] in {0xaf, 0xb6, 0xb7, 0xbe, 0xbf} {
      AddressedLengthBehind0F(code, 0);
    } else if code[1] == 0xba {
      AddressedLengthBehind0F(code, 1);
    }
  }

  /** Three opcode bytes between registers: 0F 38 without, 0F 3A with an immediate. */
  lemma ThreeByteOpcodeLengths(code: seq<byte>)
    requires |code| >= 4 && code[0] == 0x0f && code[3] >= 0xc0
    ensures code[1] == 0x38 ==> Length(code, 8) == 4
    ensures code[1] == 0x3a ==> Length(code, 8) == 5
  {
    if code[1] == 0x38 || code[1] == 0x3a {
      var h := Head([], Three(code[1], code[2]), Some(code[3]), None);
      assert HeadBytes(h) == [code[0], code[1], code[2], code[3]];
      LengthAt(code, h);
    }
  }
}
