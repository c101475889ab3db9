/** The data CRC of USB 2.0, section 8.3.5.2, one bit at a time. */
module Crc16 {
  import opened Bits

  /** A 16-bit shift register, bit 0 first. */
  type Word = s: seq<bool> | |s| == 16 witness Zeros(16)

  function Seed(): Word { Not(Zeros(16)) }

  /** The bits of 0xA001: x^16 + x^15 + x^2 + 1 in transmission order. */
  predicate Tap(i: nat) { i == 0 || i == 13 || i == 15 }

  /** One shift for one message bit: shift right, and exclusive-or with 0xA001 when the bit that
      leaves the register differs from the message bit. */
  function StepBit(r: Word, b: bool): Word {
    var feedback := r[0] != b;
    seq(16, i requires 0 <= i < 16 => (i < 15 && r[i + 1]) != (feedback && Tap(i)))
  }

  /** The register after a whole bit stream. */
  function Register(bits: seq<bool>, r: Word): Word {
    if bits == [] then r else Register(bits[1..], StepBit(r, bits[0]))
  }

  /** The 16 bits sent after the data: the complement of the register, bit 0 first. */
  function Crc(data: seq<byte>): Word {
    Not(Register(BitStream(data), Seed()))
  }

  /** The CRC as the two bytes that follow the data. */
  function CrcLow(data: seq<byte>): byte { ByteOf(Crc(data)[..8]) }
  function CrcHigh(data: seq<byte>): byte { ByteOf(Crc(data)[8..]) }

  lemma {:induction false} RegisterAppend(a: seq<bool>, b: seq<bool>, r: Word)
    ensures Register(a + b, r) == Register(b, Register(a, r))
    decreases |a|
  {
    hide StepBit;
    if a == [] {
      assert a + b == b;
    } else {
      assert (a + b)[0] == a[0] && (a + b)[1..] == a[1..] + b;
      RegisterAppend(a[1..], b, StepBit(r, a[0]));
    }
  }

  /** Appending one byte to the data runs the register over its eight bits. */
  lemma RegisterByte(data: seq<byte>, d: byte, r: Word)
    ensures Register(BitStream(data + [d]), r) == Register(BitsOf(d), Register(BitStream(data), r))
  {
    hide StepBit, BitsOf;
    BitStreamAppend(data, [d]);
    BitStreamByte(d);
    RegisterAppend(BitStream(data), BitsOf(d), r);
  }

  // ---- Shifting a whole byte out of the register ----

  /** `n` shifts of the register with no message bits. */
  function Shifts(s: Word, n: nat): Word
    decreases n
  {
    if n == 0 then s else Shifts(StepBit(s, false), n - 1)
  }

  /** Data exclusive-ored into the low bits of the register. */
  function XorLow(s: Word, e: seq<bool>): Word
    requires |e| <= 8
  {
    Xor(s[..|e|], e) + s[|e|..]
  }

  lemma FoldBit(r: Word, e: seq<bool>)
    requires 0 < |e| <= 8
    ensures StepBit(XorLow(r, e), false) == XorLow(StepBit(r, e[0]), e[1..])
  {
    var x, y := StepBit(XorLow(r, e), false), XorLow(StepBit(r, e[0]), e[1..]);
    assert forall i :: 0 <= i < 16 ==> x[i] == y[i];
  }

  /** Exclusive-oring message bits into the register at once and then shifting
      is the same as feeding the bits one at a time. */
  lemma {:induction false} ShiftsAreRegister(r: Word, e: seq<bool>)
    requires |e| <= 8
    ensures Shifts(XorLow(r, e), |e|) == Register(e, r)
    decreases |e|
  {
    if e == [] {
      assert XorLow(r, e) == r;
    } else {
      FoldBit(r, e);
      hide StepBit;
      ShiftsAreRegister(StepBit(r, e[0]), e[1..]);
    }
  }

  lemma {:induction false} ShiftsSnoc(s: Word, n: nat)
    ensures Shifts(s, n + 1) == StepBit(Shifts(s, n), false)
    decreases n
  {
    hide StepBit;
    if n == 0 {
      assert Shifts(StepBit(s, false), 0) == StepBit(s, false);
    } else {
      ShiftsSnoc(StepBit(s, false), n - 1);
    }
  }

  /** Parity of the bits 0 to `j`. */
  predicate Parity(w: seq<bool>, j: nat)
    requires j < |w|
  {
    w[j] != (j > 0 && Parity(w, j - 1))
  }

  /** The register after `k` shifts, bit by bit: every feedback is a prefix parity. */
  lemma {:induction false} ShiftsClosedForm(w: Word, k: nat)
    requires k <= 8
    ensures forall i :: 0 <= i < 16 ==> Shifts(w, k)[i] == ShiftedBit(w, k, i)
    decreases k
  {
    if k > 0 {
      ShiftsClosedForm(w, k - 1);
      ShiftsSnoc(w, k - 1);
      var r := Shifts(w, k - 1);
      assert r[0] == ShiftedBit(w, k - 1, 0) == Parity(w, k - 1);
      forall i | 0 <= i < 16
        ensures StepBit(r, false)[i] == ShiftedBit(w, k, i)
      {
        if i < 15 {
          assert r[i + 1] == ShiftedBit(w, k - 1, i + 1);
        }
      }
    }
  }

  predicate ShiftedBit(w: Word, k: nat, i: nat)
    requires k <= 8 && i < 16
  {
    var kept := i + k < 16 && w[i + k];
    var tap0 := i == 0 && k > 0 && Parity(w, k - 1);
    var tap13 := 14 - k <= i <= 13 && Parity(w, i - (14 - k));
    var tap15 := 16 - k <= i && Parity(w, i - (16 - k));
    (kept != tap0) != (tap13 != tap15)
  }
}
