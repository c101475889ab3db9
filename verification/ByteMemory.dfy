/** Byte-addressed memory of which only some addresses are mapped. */
module ByteMemory {
  import opened Bits

  /** Addresses and words have 32 bits. */
  const TOP: nat := 0x1_0000_0000

  /** A word in memory, lowest byte first. */
  function Le32(n: nat): (b: seq<byte>)
    ensures |b| == 4
  {
    [n % 256, n / 256 % 256, n / 0x1_0000 % 256, n / 0x100_0000 % 256]
  }

  function Word(b: seq<byte>): nat
    requires |b| == 4
  {
    b[0] as nat + 256 * b[1] as nat + 0x1_0000 * b[2] as nat + 0x100_0000 * b[3] as nat
  }

  lemma WordOfLe32(n: nat)
    requires n < TOP
    ensures Word(Le32(n)) == n
  {
    var a, b, c := n / 256, n / 0x1_0000, n / 0x100_0000;
    assert b == a / 256 && c == b / 256 && c < 256;
  }

  lemma FourBytes(a: byte, b: byte, c: byte, d: byte)
    ensures BitStream([a, b, c, d]) == BitsOf(a) + (BitsOf(b) + (BitsOf(c) + BitsOf(d)))
  {
    hide BitsOf;
    assert [a, b, c, d][1..] == [b, c, d] && [b, c, d][1..] == [c, d] && [c, d][1..] == [d] && [d][1..] == [];
    assert BitStream([d]) == BitsOf(d) + [] == BitsOf(d);
    assert BitStream([c, d]) == BitsOf(c) + BitStream([d]);
    assert BitStream([b, c, d]) == BitsOf(b) + BitStream([c, d]);
  }

  lemma ByteOfNumber(n: nat)
    ensures BitsOf(n % 256) == LowBits(n, 8)
  {
    hide LowBits, Pow2;
    PowerOf8();
    LowBitsOfSum(n % 256, 8, n / 256);
  }

  lemma PowerOf8()
    ensures Pow2(8) == 256
  {
  }

  lemma ShiftedByByte(n: nat)
    ensures Shifted(n, 8) == n / 256
  {
    assert n / 256 == n / 2 / 2 / 2 / 2 / 2 / 2 / 2 / 2;
  }

  /** The bytes of a word hold its bits in the order in which USB sends bits: the lowest first. */
  lemma Le32IsLowestFirst(n: nat)
    ensures BitStream(Le32(n)) == LowBits(n, 32)
  {
    hide LowBits, BitsOf, BitStream, Shifted;
    var n1, n2, n3 := n / 256, n / 0x1_0000, n / 0x100_0000;
    assert n2 == n1 / 256 && n3 == n2 / 256;
    FourBytes(n % 256, n1 % 256, n2 % 256, n3 % 256);
    ByteOfNumber(n);
    ByteOfNumber(n1);
    ByteOfNumber(n2);
    ByteOfNumber(n3);
    ShiftedByByte(n);
    ShiftedByByte(n1);
    ShiftedByByte(n2);
    LowBitsSplit(n, 8, 24);
    LowBitsSplit(n1, 8, 16);
    LowBitsSplit(n2, 8, 8);
  }

  /** And a word is read from its bits. */
  lemma WordIsValue(b: seq<byte>)
    requires |b| == 4
    ensures Value(BitStream(b)) == Word(b)
  {
    hide Value, BitsOf, BitStream;
    assert Pow2(8) == 256;
    assert b == [b[0], b[1], b[2], b[3]];
    FourBytes(b[0], b[1], b[2], b[3]);
    ValueOfByte(b[0]);
    ValueOfByte(b[1]);
    ValueOfByte(b[2]);
    ValueOfByte(b[3]);
    ValueOfBoth(BitsOf(b[2]), BitsOf(b[3]));
    ValueOfBoth(BitsOf(b[1]), BitsOf(b[2]) + BitsOf(b[3]));
    ValueOfBoth(BitsOf(b[0]), BitsOf(b[1]) + (BitsOf(b[2]) + BitsOf(b[3])));
  }

  lemma ValueOfByte(b: byte)
    ensures Value(BitsOf(b)) == b
  {
    assert Pow2(8) == 256;
    ValueOfLowBits(b, 8);
  }

  type Memory = map<int, byte>

  /** The addresses `at` to `at + n - 1`. */
  function Addresses(at: nat, n: nat): (r: set<int>)
    ensures forall a :: a in r <==> at <= a < at + n
  {
    if n == 0 then {} else Addresses(at, n - 1) + {at + n - 1}
  }

  predicate Holds(mem: Memory, at: nat, data: seq<byte>) {
    forall a :: at <= a < at + |data| ==> a in mem && mem[a] == data[a - at]
  }

  predicate Mapped(mem: Memory, at: nat, n: nat) { forall a :: at <= a < at + n ==> a in mem }

  predicate Unmapped(mem: Memory, at: nat, n: nat) { forall a :: at <= a < at + n ==> a !in mem }

  function Overwrite(mem: Memory, at: nat, data: seq<byte>): Memory {
    map a | a in mem :: if at <= a < at + |data| then data[a - at] else mem[a]
  }

  /** Nothing that was mapped before has changed, except perhaps between `from` and `to`. */
  predicate UnchangedOutside(before: Memory, now: Memory, from: nat, to: nat) {
    forall a :: a in before && !(from <= a < to) ==> a in now && now[a] == before[a]
  }

  lemma StillHolds(before: Memory, now: Memory, from: nat, to: nat, at: nat, b: seq<byte>)
    requires Holds(before, at, b) && UnchangedOutside(before, now, from, to) && (at + |b| <= from || to <= at)
    ensures Holds(now, at, b)
  {
  }

  lemma HoldsBoth(mem: Memory, at: nat, a: seq<byte>, b: seq<byte>)
    requires Holds(mem, at, a) && Holds(mem, at + |a|, b)
    ensures Holds(mem, at, a + b)
  {
  }

  lemma HoldsPart(mem: Memory, at: nat, a: seq<byte>, k: nat)
    requires Holds(mem, at, a) && k <= |a|
    ensures Holds(mem, at + k, a[k..]) && Holds(mem, at, a[..k])
  {
  }
}
