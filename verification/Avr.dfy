/** The AVR instructions used below, on registers held as bit sequences (bit 0 first)
    and on counter registers held as numbers. */
module Avr {
  import opened Bits

  /** `ror`: rotate right through the carry flag; bit 0 goes to the carry flag. */
  method Ror(r: Reg, c: bool) returns (r': Reg, c': bool)
    ensures r' == r[1..] + [c] && c' == r[0]
  {
    r', c' := r[1..] + [c], r[0];
  }

  /** `lsl`: shift left; bit 7 goes to the carry flag. */
  method Lsl(r: Reg) returns (r': Reg, c': bool)
    ensures r' == [false] + r[..7] && c' == r[7]
  {
    r', c' := [false] + r[..7], r[7];
  }

  /** `lsr`: shift right; bit 0 goes to the carry flag. */
  method Lsr(r: Reg) returns (r': Reg, c': bool)
    ensures r' == r[1..] + [false] && c' == r[0]
  {
    r', c' := r[1..] + [false], r[0];
  }

  /** `subi` on a counter register: subtract modulo 256; the carry flag is the borrow. */
  method Subi(r: byte, k: byte) returns (r': byte, c': bool)
    ensures r' == (if r < k then r - k + 256 else r - k) && c' == (r < k)
  {
    r', c' := if r < k then r - k + 256 else r - k, r < k;
  }

  /** `inc` on a register held as bits. */
  function Inc(r: seq<bool>): (r': seq<bool>)
    ensures |r'| == |r|
  {
    if r == [] then [] else [!r[0]] + if r[0] then Inc(r[1..]) else r[1..]
  }

  lemma {:induction false} IncAddsOne(r: seq<bool>)
    ensures Value(Inc(r)) == if Value(r) + 1 == Pow2(|r|) then 0 else Value(r) + 1
  {
    if r != [] {
      IncAddsOne(r[1..]);
      assert Inc(r)[1..] == if r[0] then Inc(r[1..]) else r[1..];
    }
  }

  /** `neg`: two's complement. */
  function Neg(r: Reg): Reg { Inc(Not(r)) }

  /** `swap`: exchange the nibbles. */
  function Swap(r: Reg): Reg { r[4..] + r[..4] }

  /** `andi`. */
  function And(a: seq<bool>, b: seq<bool>): (c: seq<bool>)
    requires |a| == |b|
    ensures |c| == |a|
  {
    seq(|a|, i requires 0 <= i < |a| => a[i] && b[i])
  }
}
