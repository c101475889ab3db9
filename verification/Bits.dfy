/** Bytes, registers as bit sequences, and the bit order of USB: least significant bit first. */
module Bits {

  type byte = x: int | 0 <= x < 256

  /** USB_BUFSIZE, the longest packet: PID, eight data bytes, two CRC bytes. */
  const BUFSIZE: nat := 11

  function Min(a: nat, b: nat): nat { if a < b then a else b }

  lemma Associates<T>(a: seq<T>, b: seq<T>, c: seq<T>)
    ensures a + b + c == a + (b + c)
  {
  }

  lemma DropSlice<T>(s: seq<T>, d: nat, from: nat, to: nat)
    requires from <= to && d + to <= |s|
    ensures s[d..][from..to] == s[d + from..d + to]
  {
    var a, b := s[d..][from..to], s[d + from..d + to];
    assert forall k :: 0 <= k < to - from ==> a[k] == b[k];
  }

  /** An 8-bit register, bit 0 first. */
  type Reg = s: seq<bool> | |s| == 8 witness Zeros(8)

  function Zeros(n: nat): (s: seq<bool>)
    ensures |s| == n
    ensures forall i :: 0 <= i < n ==> !s[i]
  {
    if n == 0 then [] else [false] + Zeros(n - 1)
  }

  /** The `n` low bits of a number, bit 0 first. */
  function LowBits(v: nat, n: nat): (bits: seq<bool>)
    ensures |bits| == n
    decreases n
  {
    if n == 0 then [] else [v % 2 == 1] + LowBits(v / 2, n - 1)
  }

  /** The number whose bits are given, bit 0 first. */
  function Value(bits: seq<bool>): nat {
    if bits == [] then 0 else (if bits[0] then 1 else 0) + 2 * Value(bits[1..])
  }

  function Pow2(n: nat): (p: nat)
    ensures p > 0
  {
    if n == 0 then 1 else 2 * Pow2(n - 1)
  }

  lemma {:induction false} ValueOfLowBits(v: nat, n: nat)
    requires v < Pow2(n)
    ensures Value(LowBits(v, n)) == v
    decreases n
  {
    if n > 0 {
      ValueOfLowBits(v / 2, n - 1);
    }
  }

  lemma {:induction false} LowBitsOfValue(bits: seq<bool>)
    ensures Value(bits) < Pow2(|bits|)
    ensures LowBits(Value(bits), |bits|) == bits
  {
    if bits != [] {
      LowBitsOfValue(bits[1..]);
      assert Value(bits) / 2 == Value(bits[1..]);
    }
  }

  /** A number without its `n` low bits. */
  function Shifted(v: nat, n: nat): nat
    decreases n
  {
    if n == 0 then v else Shifted(v / 2, n - 1)
  }

  /** The low bits first, then the rest. */
  lemma {:induction false} LowBitsSplit(v: nat, a: nat, b: nat)
    ensures LowBits(v, a + b) == LowBits(v, a) + LowBits(Shifted(v, a), b)
    decreases a
  {
    if a == 0 {
      assert LowBits(v, 0) == [];
    } else {
      LowBitsSplit(v / 2, a - 1, b);
    }
  }

  /** Higher bits do not show in the low ones. */
  lemma {:induction false} LowBitsOfSum(v: nat, n: nat, q: nat)
    ensures LowBits(v + Pow2(n) * q, n) == LowBits(v, n)
    decreases n
  {
    hide Pow2;
    if n > 0 {
      var t := Pow2(n - 1) * q;
      NextPower(n - 1);
      TimesTwice(Pow2(n - 1), q);
      LowBitsOfSum(v / 2, n - 1, q);
      HalfOfSum(v, t);
    }
  }

  lemma NextPower(n: nat)
    ensures Pow2(n + 1) == 2 * Pow2(n)
  {
  }

  lemma HalfOfSum(v: nat, t: nat)
    ensures (v + 2 * t) % 2 == v % 2 && (v + 2 * t) / 2 == v / 2 + t
  {
  }

  lemma {:induction false} ValueOfBoth(a: seq<bool>, b: seq<bool>)
    ensures Value(a + b) == Value(a) + Pow2(|a|) * Value(b)
  {
    if a == [] {
      assert a + b == b;
    } else {
      ValueOfBoth(a[1..], b);
      assert (a + b)[1..] == a[1..] + b;
      TimesTwice(Pow2(|a| - 1), Value(b));
    }
  }

  lemma TimesTwice(p: nat, v: nat)
    ensures 2 * (p * v) == (2 * p) * v
  {
  }

  /** The eight bits of a byte, in the order in which they are sent. */
  function BitsOf(b: byte): Reg { LowBits(b, 8) }

  function ByteOf(r: Reg): byte {
    LowBitsOfValue(r);
    assert Pow2(8) == 256;
    Value(r)
  }

  function Weight(b: bool, w: nat): nat { if b then w else 0 }

  /** The value of a register as a sum of powers of two. */
  function Weigh(r: Reg): nat {
    Weight(r[0], 1) + Weight(r[1], 2) + Weight(r[2], 4) + Weight(r[3], 8)
    + Weight(r[4], 16) + Weight(r[5], 32) + Weight(r[6], 64) + Weight(r[7], 128)
  }

  /** Four bits and what stands above them. */
  lemma ValueOfNibble(r: seq<bool>)
    requires |r| >= 4
    ensures Value(r) == Weight(r[0], 1) + Weight(r[1], 2) + Weight(r[2], 4) + Weight(r[3], 8) + 16 * Value(r[4..])
  {
    ValueStep(r, 0);
    ValueStep(r, 1);
    ValueStep(r, 2);
    ValueStep(r, 3);
    assert r[0..] == r;
    hide Value;
  }

  lemma ValueStep(r: seq<bool>, k: nat)
    requires k < |r|
    ensures Value(r[k..]) == Weight(r[k], 1) + 2 * Value(r[k + 1..])
  {
    assert r[k..][1..] == r[k + 1..];
  }

  lemma ByteIsValue(r: Reg)
    ensures ByteOf(r) == Value(r)
  {
  }

  lemma WeighIsValue(r: Reg)
    ensures Weigh(r) == ByteOf(r)
  {
    hide Value, ByteOf;
    ByteIsValue(r);
    ValueOfNibble(r);
    ValueOfNibble(r[4..]);
    assert r[4..][4..] == [];
    NoValue();
  }

  lemma NoValue()
    ensures Value([]) == 0
  {
  }

  lemma ByteOfBitsOf(b: byte)
    ensures ByteOf(BitsOf(b)) == b
  {
    assert Pow2(8) == 256;
    ValueOfLowBits(b, 8);
  }

  lemma BitsOfByteOf(r: Reg)
    ensures BitsOf(ByteOf(r)) == r
  {
    LowBitsOfValue(r);
  }

  /** Bitwise exclusive or of two registers of the same width. */
  function Xor(a: seq<bool>, b: seq<bool>): (c: seq<bool>)
    requires |a| == |b|
    ensures |c| == |a|
  {
    seq(|a|, i requires 0 <= i < |a| => a[i] != b[i])
  }

  function Not(a: seq<bool>): (c: seq<bool>)
    ensures |c| == |a|
  {
    seq(|a|, i requires 0 <= i < |a| => !a[i])
  }

  /** The bits of a packet in transmission order. */
  function BitStream(data: seq<byte>): (bits: seq<bool>)
    ensures |bits| == 8 * |data|
  {
    if data == [] then [] else BitsOf(data[0]) + BitStream(data[1..])
  }

  lemma {:induction false} BitStreamAppend(a: seq<byte>, b: seq<byte>)
    ensures BitStream(a + b) == BitStream(a) + BitStream(b)
  {
    hide BitsOf;
    if a == [] {
      assert a + b == b;
    } else {
      assert (a + b)[0] == a[0] && (a + b)[1..] == a[1..] + b;
      BitStreamAppend(a[1..], b);
    }
  }

  lemma BitStreamByte(d: byte)
    ensures BitStream([d]) == BitsOf(d)
  {
    hide BitsOf;
    assert BitStream([d]) == BitsOf(d) + BitStream([]);
  }
}
