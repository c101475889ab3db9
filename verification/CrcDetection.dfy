/** What the CRC guarantees to the receiver of a packet, for every message length. */
module CrcDetection {
  import opened Bits
  import opened Crc16

  // ---- The CRC is linear ----

  lemma StepLinear(a: Word, b: Word, x: bool, y: bool)
    ensures StepBit(Xor(a, b), x != y) == Xor(StepBit(a, x), StepBit(b, y))
  {
    var l, r := StepBit(Xor(a, b), x != y), Xor(StepBit(a, x), StepBit(b, y));
    assert forall i :: 0 <= i < 16 ==> l[i] == r[i];
  }

  lemma {:induction false} RegisterLinear(x: seq<bool>, y: seq<bool>, a: Word, b: Word)
    requires |x| == |y|
    ensures Register(Xor(x, y), Xor(a, b)) == Xor(Register(x, a), Register(y, b))
    decreases |x|
  {
    if x != [] {
      StepLinear(a, b, x[0], y[0]);
      assert Xor(x, y)[1..] == Xor(x[1..], y[1..]);
      hide StepBit;
      RegisterLinear(x[1..], y[1..], StepBit(a, x[0]), StepBit(b, y[0]));
    } else {
      assert Xor(x, y) == [];
    }
  }

  // ---- The residue ----

  /** 0xB001, the residue of USB 2.0, section 8.3.5.2, with the bits in transmission order. */
  const RESIDUE: Word := [true] + Zeros(11) + [true, true, false, true]

  lemma ResidueValue()
    ensures Value(RESIDUE) == 0xB001
  {
    var top := [true, true, false, true];
    assert RESIDUE[1..] == Zeros(11) + top;
    ValueZeros(11, top);
    assert Pow2(11) == 2048;
    assert Value(top) == 11;
  }

  lemma {:induction false} ValueZeros(n: nat, s: seq<bool>)
    ensures Value(Zeros(n) + s) == Pow2(n) * Value(s)
  {
    if n == 0 {
      assert Zeros(0) + s == s;
    } else {
      ValueZeros(n - 1, s);
      assert (Zeros(n) + s)[1..] == Zeros(n - 1) + s;
      assert !(Zeros(n) + s)[0];
    }
  }

  /** Feeding a register its own bits empties it. */
  lemma {:induction false} OwnBits(r: Word, n: nat)
    requires n <= 16 && forall i :: n <= i < 16 ==> !r[i]
    ensures Register(r[..n], r) == Zeros(16)
    decreases n
  {
    if n == 0 {
      assert r == Zeros(16);
    } else {
      var s := StepBit(r, r[0]);
      assert forall i :: 0 <= i < 15 ==> s[i] == r[i + 1];
      assert s[..n - 1] == r[..n][1..];
      OwnBits(s, n - 1);
    }
  }

  /** The empty register after `k` ones: the feedback alternates, starting with a one. */
  predicate OnesBit(k: nat, i: nat)
    requires k <= 14 && i < 16
  {
    var tap0 := i == 0 && k > 0 && k % 2 == 1;
    var tap13 := 14 - k <= i <= 13 && (i - (14 - k)) % 2 == 0;
    var tap15 := 16 - k <= i && (i - (16 - k)) % 2 == 0;
    tap0 != (tap13 != tap15)
  }

  function OnesWord(k: nat): Word
    requires k <= 14
  {
    seq(16, i requires 0 <= i < 16 => OnesBit(k, i))
  }

  lemma OnesStep(k: nat)
    requires k < 14
    ensures StepBit(OnesWord(k), true) == OnesWord(k + 1)
  {
    var r, t := StepBit(OnesWord(k), true), OnesWord(k + 1);
    forall i | 0 <= i < 16 ensures r[i] == t[i] {
      assert i < 15 ==> OnesWord(k)[i + 1] == OnesBit(k, i + 1);
    }
  }

  lemma {:induction false} OnesFrom(k: nat)
    requires k <= 14
    ensures Register(Not(Zeros(16)), Zeros(16)) == Register(Not(Zeros(16 - k)), OnesWord(k))
  {
    if k == 0 {
      assert OnesWord(0) == Zeros(16);
    } else {
      OnesFrom(k - 1);
      OnesStep(k - 1);
      hide StepBit, OnesWord;
      assert Not(Zeros(17 - k))[1..] == Not(Zeros(16 - k));
    }
  }

  lemma LastTwoOnes()
    ensures StepBit(StepBit(OnesWord(14), true), true) == RESIDUE
  {
    var r, s, t := OnesWord(14), StepBit(OnesWord(14), true), StepBit(StepBit(OnesWord(14), true), true);
    assert forall i :: 0 <= i < 16 ==> r[i] == (i == 0 || i == 14);
    assert forall i :: 0 <= i < 16 ==> s[i] == (i == 13);
    assert forall i :: 0 <= i < 16 ==> t[i] == (i == 0 || i == 12 || i == 13 || i == 15);
  }

  lemma OnesGiveResidue()
    ensures Register(Not(Zeros(16)), Zeros(16)) == RESIDUE
  {
    OnesFrom(14);
    LastTwoOnes();
    var r, two := OnesWord(14), Not(Zeros(2));
    hide StepBit, OnesWord;
    assert two == [true, true];
    assert Register(two, r) == Register(two[1..], StepBit(r, true));
    assert Register(two[1..], StepBit(r, true)) == Register(two[1..][1..], StepBit(StepBit(r, true), true));
  }

  /** The packet as sent: the data and the two CRC bytes. */
  function Packet(data: seq<byte>): seq<byte> { data + [CrcLow(data), CrcHigh(data)] }

  lemma PacketBits(data: seq<byte>)
    ensures BitStream(Packet(data)) == BitStream(data) + Crc(data)
  {
    var c := Crc(data);
    BitsOfByteOf(c[..8]);
    BitsOfByteOf(c[8..]);
    hide BitsOf, ByteOf, Crc;
    var l, h := CrcLow(data), CrcHigh(data);
    assert Packet(data) == data + ([l] + [h]);
    BitStreamAppend(data, [l] + [h]);
    BitStreamAppend([l], [h]);
    BitStreamByte(l);
    BitStreamByte(h);
    assert c[..8] + c[8..] == c;
  }

  /** Every packet leaves the residue, whatever its data. */
  lemma PacketLeavesResidue(data: seq<byte>)
    ensures Register(BitStream(Packet(data)), Seed()) == RESIDUE
  {
    var r := Register(BitStream(data), Seed());
    PacketBits(data);
    RegisterAppend(BitStream(data), Not(r), Seed());
    assert r[..16] == r;
    OwnBits(r, 16);
    OnesGiveResidue();
    RegisterLinear(r, Not(Zeros(16)), r, Zeros(16));
    assert Xor(r, Not(Zeros(16))) == Not(r);
    assert Xor(r, Zeros(16)) == r;
    assert Xor(Zeros(16), RESIDUE) == RESIDUE;
  }

  // ---- What the residue detects ----

  /** What an error pattern adds to the register. */
  function Syndrome(e: seq<bool>): Word { Register(e, Zeros(16)) }

  /** A received packet passes the check exactly when the error pattern has an empty syndrome. */
  lemma ErrorPasses(data: seq<byte>, e: seq<bool>)
    requires |e| == |BitStream(Packet(data))|
    ensures Register(Xor(BitStream(Packet(data)), e), Seed()) == RESIDUE <==> Syndrome(e) == Zeros(16)
  {
    var p := BitStream(Packet(data));
    hide StepBit, Packet, BitStream, RESIDUE;
    PacketLeavesResidue(data);
    RegisterLinear(p, e, Seed(), Zeros(16));
    assert Xor(Seed(), Zeros(16)) == Seed();
    var z := Syndrome(e);
    assert z == Zeros(16) ==> Xor(RESIDUE, z) == RESIDUE;
    if Xor(RESIDUE, z) == RESIDUE {
      assert forall i :: 0 <= i < 16 ==> Xor(RESIDUE, z)[i] == (RESIDUE[i] != z[i]);
      assert z == Zeros(16);
    }
  }

  /** The number of ones is odd. */
  predicate OddOnes(s: seq<bool>) {
    s != [] && s[0] != OddOnes(s[1..])
  }

  lemma {:induction false} OddOnesXor(a: seq<bool>, b: seq<bool>)
    requires |a| == |b|
    ensures OddOnes(Xor(a, b)) == (OddOnes(a) != OddOnes(b))
  {
    if a != [] {
      OddOnesXor(a[1..], b[1..]);
      assert Xor(a, b)[1..] == Xor(a[1..], b[1..]);
    }
  }

  lemma {:induction false} OddOnesAppend(a: seq<bool>, b: seq<bool>)
    ensures OddOnes(a + b) == (OddOnes(a) != OddOnes(b))
  {
    if a == [] {
      assert a + b == b;
    } else {
      OddOnesAppend(a[1..], b);
      assert (a + b)[1..] == a[1..] + b;
    }
  }

  lemma {:induction false} OddOnesZeros(n: nat)
    ensures !OddOnes(Zeros(n))
  {
    if n > 0 {
      OddOnesZeros(n - 1);
      assert Zeros(n)[1..] == Zeros(n - 1);
    }
  }

  const TAPS: Word := [true] + Zeros(12) + [true, false, true]

  lemma TapsOdd()
    ensures OddOnes(TAPS)
  {
    var top := [true, false, true];
    OddOnesZeros(12);
    OddOnesAppend(Zeros(12), top);
    assert TAPS[1..] == Zeros(12) + top;
    assert OddOnes(top[2..]);
    assert !OddOnes(top);
  }

  lemma StepAsXor(r: Word, b: bool)
    ensures StepBit(r, b) == Xor(r[1..] + [false], if r[0] != b then TAPS else Zeros(16))
  {
    var l, t := StepBit(r, b), Xor(r[1..] + [false], if r[0] != b then TAPS else Zeros(16));
    assert forall i :: 0 <= i < 16 ==> TAPS[i] == Tap(i);
    assert forall i :: 0 <= i < 16 ==> l[i] == t[i];
  }

  /** The parity of the register follows the parity of the message. */
  lemma {:induction false} RegisterParity(bits: seq<bool>, r: Word)
    ensures OddOnes(Register(bits, r)) == (OddOnes(r) != OddOnes(bits))
    decreases |bits|
  {
    if bits != [] {
      StepAsXor(r, bits[0]);
      hide StepBit, TAPS, Xor;
      TapsOdd();
      OddOnesZeros(16);
      OddOnesXor(r[1..] + [false], if r[0] != bits[0] then TAPS else Zeros(16));
      OddOnesAppend(r[1..], [false]);
      RegisterParity(bits[1..], StepBit(r, bits[0]));
    }
  }

  /** The bits of a packet together always have even parity. */
  lemma PacketParityEven(data: seq<byte>)
    ensures !OddOnes(BitStream(Packet(data)))
  {
    PacketLeavesResidue(data);
    RegisterParity(BitStream(Packet(data)), Seed());
    hide Packet, BitStream, Register, Xor;
    SeedAndResidueEven();
  }

  lemma SeedAndResidueEven()
    ensures !OddOnes(Seed()) && !OddOnes(RESIDUE)
  {
    OddOnesZeros(11);
    var top := [true, true, false, true];
    OddOnesAppend(Zeros(11), top);
    assert RESIDUE[1..] == Zeros(11) + top;
    assert OddOnes(top[3..]) && OddOnes(top[2..]) && !OddOnes(top[1..]) && OddOnes(top);
    NotZerosParity(16);
  }

  lemma {:induction false} NotZerosParity(n: nat)
    ensures OddOnes(Not(Zeros(n))) == (n % 2 == 1)
  {
    if n > 0 {
      NotZerosParity(n - 1);
      assert Not(Zeros(n))[1..] == Not(Zeros(n - 1));
    }
  }

  /** Every odd number of flipped bits is detected. */
  lemma OddErrorsDetected(e: seq<bool>)
    requires OddOnes(e)
    ensures Syndrome(e) != Zeros(16)
  {
    RegisterParity(e, Zeros(16));
    OddOnesZeros(16);
  }

  /** Some bit at index `m` or above is set. */
  predicate SetFrom(r: Word, m: nat) { exists i :: m <= i < 16 && r[i] }

  lemma StepKeepsTop(r: Word, m: nat, b: bool)
    requires 0 < m < 16 && SetFrom(r, m)
    ensures SetFrom(StepBit(r, b), m - 1)
  {
    var s := StepBit(r, b);
    if r[0] != b {
      assert s[15];
    } else {
      var i :| m <= i < 16 && r[i];
      assert s[i - 1];
    }
  }

  lemma {:induction false} BurstKeepsTop(e: seq<bool>, r: Word, m: nat)
    requires |e| <= m < 16 && SetFrom(r, m)
    ensures SetFrom(Register(e, r), m - |e|)
    decreases |e|
  {
    if e != [] {
      StepKeepsTop(r, m, e[0]);
      BurstKeepsTop(e[1..], StepBit(r, e[0]), m - 1);
    }
  }

  /** A register that is not empty stays so while no further errors come in. */
  lemma {:induction false} QuietKeepsNonZero(n: nat, r: Word)
    requires SetFrom(r, 0)
    ensures SetFrom(Register(Zeros(n), r), 0)
    decreases n
  {
    if n > 0 {
      var s := StepBit(r, false);
      if r[0] {
        assert s[15];
      } else {
        var i :| 0 <= i < 16 && r[i];
        assert s[i - 1];
      }
      assert Zeros(n)[1..] == Zeros(n - 1);
      QuietKeepsNonZero(n - 1, s);
    }
  }

  lemma {:induction false} QuietStart(n: nat, e: seq<bool>)
    ensures Register(Zeros(n) + e, Zeros(16)) == Register(e, Zeros(16))
    decreases n
  {
    if n == 0 {
      assert Zeros(0) + e == e;
    } else {
      assert (Zeros(n) + e)[1..] == Zeros(n - 1) + e;
      assert StepBit(Zeros(16), false) == Zeros(16);
      hide StepBit;
      QuietStart(n - 1, e);
    }
  }

  lemma BurstSets(burst: seq<bool>)
    requires 0 < |burst| <= 16 && burst[0]
    ensures SetFrom(Register(burst, Zeros(16)), 0)
  {
    var s := StepBit(Zeros(16), true);
    assert s[15];
    BurstKeepsTop(burst[1..], s, 15);
  }

  function LeadingZeros(w: seq<bool>): (k: nat)
    ensures k <= |w| && w[..k] == Zeros(k)
    ensures k < |w| ==> w[k]
  {
    if w == [] || w[0] then 0 else
      var k := LeadingZeros(w[1..]) + 1;
      assert w[..k] == [w[0]] + w[1..][..k - 1];
      k
  }

  lemma BurstThenQuiet(burst: seq<bool>, after: nat)
    requires 0 < |burst| <= 16 && burst[0]
    ensures Syndrome(burst + Zeros(after)) != Zeros(16)
  {
    RegisterAppend(burst, Zeros(after), Zeros(16));
    BurstSets(burst);
    QuietKeepsNonZero(after, Register(burst, Zeros(16)));
  }

  lemma Regroup(z: seq<bool>, w: seq<bool>, k: nat, t: seq<bool>)
    requires k <= |w|
    ensures z + w + t == z + (w[..k] + (w[k..] + t))
  {
    assert w == w[..k] + w[k..];
    assert w + t == w[..k] + (w[k..] + t);
    assert z + w + t == z + (w + t);
  }

  lemma NotAllZeros(window: seq<bool>)
    requires window != Zeros(|window|)
    ensures LeadingZeros(window) < |window|
  {
    assert window[..|window|] == window;
  }

  lemma QuietTwice(e: seq<bool>, a: nat, b: nat, rest: seq<bool>)
    requires e == Zeros(a) + (Zeros(b) + rest)
    ensures Syndrome(e) == Syndrome(rest)
  {
    QuietStart(a, Zeros(b) + rest);
    QuietStart(b, rest);
  }

  lemma BurstBehind(before: nat, k: nat, burst: seq<bool>, after: nat, e: seq<bool>)
    requires e == Zeros(before) + (Zeros(k) + (burst + Zeros(after))) && 0 < |burst| <= 16 && burst[0]
    ensures Syndrome(e) != Zeros(16)
  {
    hide Syndrome, Zeros;
    QuietTwice(e, before, k, burst + Zeros(after));
    BurstThenQuiet(burst, after);
  }

  /** Every error confined to sixteen consecutive bits is detected. */
  lemma BurstDetected(before: nat, window: seq<bool>, after: nat)
    requires |window| <= 16 && window != Zeros(|window|)
    ensures Syndrome(Zeros(before) + window + Zeros(after)) != Zeros(16)
  {
    hide Syndrome, Zeros;
    NotAllZeros(window);
    var k := LeadingZeros(window);
    Regroup(Zeros(before), window, k, Zeros(after));
    BurstBehind(before, k, window[k..], after, Zeros(before) + window + Zeros(after));
  }

  /** Changing one or both of two adjacent data bytes changes the CRC. */
  lemma AdjacentBytesChangeCrc(before: seq<byte>, x: byte, y: byte, x': byte, y': byte, after: seq<byte>)
    requires x != x' || y != y'
    ensures Crc(before + [x, y] + after) != Crc(before + [x', y'] + after)
  {
    var p, q := before + [x, y] + after, before + [x', y'] + after;
    var w, w' := BitsOf(x) + BitsOf(y), BitsOf(x') + BitsOf(y');
    Split(before, x, y, after);
    Split(before, x', y', after);
    TwoBytesDiffer(x, y, x', y');
    var u, v := BitStream(before), BitStream(after);
    XorMiddle(u, w, w', v);
    RegisterLinear(BitStream(p), BitStream(q), Seed(), Seed());
    hide BitsOf, StepBit, BitStream;
    BurstDetected(|u|, Xor(w, w'), |v|);
    XorSelf(Seed());
    XorSelf(Register(BitStream(p), Seed()));
    NotInjective(Register(BitStream(p), Seed()), Register(BitStream(q), Seed()));
  }

  lemma XorSelf(a: seq<bool>)
    ensures Xor(a, a) == Zeros(|a|)
  {
  }

  lemma NotInjective(a: seq<bool>, b: seq<bool>)
    requires |a| == |b|
    ensures Not(a) == Not(b) ==> a == b
  {
    assert forall i :: 0 <= i < |a| ==> a[i] == !Not(a)[i] && b[i] == !Not(b)[i];
  }

  lemma Split(before: seq<byte>, x: byte, y: byte, after: seq<byte>)
    ensures BitStream(before + [x, y] + after) == BitStream(before) + (BitsOf(x) + BitsOf(y)) + BitStream(after)
  {
    hide BitsOf;
    assert [x, y] == [x] + [y];
    BitStreamAppend(before + [x, y], after);
    BitStreamAppend(before, [x, y]);
    BitStreamAppend([x], [y]);
    BitStreamByte(x);
    BitStreamByte(y);
  }

  lemma TwoBytesDiffer(x: byte, y: byte, x': byte, y': byte)
    requires x != x' || y != y'
    ensures Xor(BitsOf(x) + BitsOf(y), BitsOf(x') + BitsOf(y')) != Zeros(16)
  {
    ByteOfBitsOf(x);
    ByteOfBitsOf(x');
    ByteOfBitsOf(y);
    ByteOfBitsOf(y');
    hide BitsOf, ByteOf;
    XorZero(BitsOf(x) + BitsOf(y), BitsOf(x') + BitsOf(y'));
    SameHalves(BitsOf(x), BitsOf(y), BitsOf(x'), BitsOf(y'));
  }

  lemma SameHalves(a: Reg, b: Reg, a': Reg, b': Reg)
    ensures a + b == a' + b' ==> a == a' && b == b'
  {
    assert a == (a + b)[..8] && b == (a + b)[8..];
    assert a' == (a' + b')[..8] && b' == (a' + b')[8..];
  }

  lemma XorZero(a: seq<bool>, b: seq<bool>)
    requires |a| == |b|
    ensures Xor(a, b) == Zeros(|a|) ==> a == b
  {
    assert forall i :: 0 <= i < |a| ==> Xor(a, b)[i] == (a[i] != b[i]);
  }

  lemma XorAppend(a: seq<bool>, b: seq<bool>, c: seq<bool>, d: seq<bool>)
    requires |a| == |c| && |b| == |d|
    ensures Xor(a + b, c + d) == Xor(a, c) + Xor(b, d)
  {
  }

  lemma XorMiddle(u: seq<bool>, w: seq<bool>, w': seq<bool>, v: seq<bool>)
    requires |w| == |w'|
    ensures Xor(u + w + v, u + w' + v) == Zeros(|u|) + Xor(w, w') + Zeros(|v|)
  {
    hide Xor, Zeros;
    XorAppend(u + w, v, u + w', v);
    XorAppend(u, w, u, w');
    XorSelf(u);
    XorSelf(v);
  }
}
