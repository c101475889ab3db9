/** The loop of PatchIoInstruction that looks for the first instruction boundary behind the bytes it needs. */
module X86Sweep {
  import opened Bits
  import opened Options
  import opened X86Instruction
  import opened X86Length

  /** sizeof(JmpFar): PUSH imm32 and RET. */
  const JMP_SIZE: nat := 6

  /** The bytes that may be counted in front of the last boundary: the loop takes `io_size_bits`, which is 8. */
  const BUDGET: nat := 8

  /** Linear sweep: an instruction that stands at a boundary ends at a boundary. */
  ghost predicate Boundary(code: seq<byte>, p: nat)
    decreases p
  {
    p == 0 || exists q :: 0 <= q < p && Boundary(code, q) && EndsAt(code, q, p)
  }

  predicate EndsAt(code: seq<byte>, q: nat, p: nat) {
    q <= |code| && HeadOf(code[q..]).Some? && p == q + Size(HeadOf(code[q..]).value)
  }

  /** No boundary lies inside an instruction that stands at one. */
  lemma {:induction false} NoBoundaryInside(code: seq<byte>, q: nat, end: nat, p: nat)
    requires Boundary(code, q) && EndsAt(code, q, end) && q < p < end
    ensures !Boundary(code, p)
    decreases p
  {
    hide HeadOf, Size;
    if Boundary(code, p) {
      var r :| 0 <= r < p && Boundary(code, r) && EndsAt(code, r, p);
      if r < q {
        NoBoundaryInside(code, r, p, q);
      } else if r > q {
        NoBoundaryInside(code, q, end, r);
      }
    }
  }

  /** No instruction that starts at a boundary in front of the jump's last byte counts more bytes than remain. */
  ghost predicate WithinBudget(code: seq<byte>) {
    forall p :: 0 <= p < JMP_SIZE && Boundary(code, p) && p <= |code| ==> Length(code[p..], BUDGET - p) != -1
  }

  /** `len_total` is the least boundary at or behind byte 6, and no more than 16; the loop gives up exactly when
      an instruction on the way exceeds the budget. */
  method FindBoundary(code: seq<byte>) returns (ok: bool, lenTotal: nat)
    requires |code| > BUDGET
    ensures ok == WithinBudget(code)
    ensures ok ==> JMP_SIZE <= lenTotal <= 16 && Boundary(code, lenTotal)
    ensures ok ==> forall p :: JMP_SIZE <= p < lenTotal ==> !Boundary(code, p)
  {
    hide Length, Size, HeadOf;
    lenTotal := 0;
    while lenTotal < JMP_SIZE
      invariant lenTotal <= 16 && Boundary(code, lenTotal)
      invariant forall p :: 0 <= p < lenTotal && p < JMP_SIZE && Boundary(code, p) ==> Length(code[p..], BUDGET - p) != -1
      invariant forall p :: JMP_SIZE <= p < lenTotal ==> !Boundary(code, p)
      decreases 16 - lenTotal
    {
      var lenThis := LengthDisasm(code[lenTotal..], BUDGET - lenTotal);
      if lenThis < 1 {
        NotFound(code, lenTotal);
        return false, 0;
      }
      NextBoundary(code, lenTotal, lenThis);
      lenTotal := lenTotal + lenThis;
    }
    return true, lenTotal;
  }

  lemma NotFound(code: seq<byte>, p: nat)
    requires p < JMP_SIZE && p <= |code| && Boundary(code, p) && Length(code[p..], BUDGET - p) < 1
    ensures !WithinBudget(code)
  {
    hide HeadOf, Boundary;
    if Length(code[p..], BUDGET - p) != -1 {
      LengthIsReal(code[p..], BUDGET - p);
    }
  }

  lemma NextBoundary(code: seq<byte>, p: nat, l: nat)
    requires p < JMP_SIZE && p <= |code| && Boundary(code, p) && l == Length(code[p..], BUDGET - p) && l >= 1
    ensures EndsAt(code, p, p + l) && Boundary(code, p + l) && p + l <= 16
    ensures forall q :: p < q < p + l ==> !Boundary(code, q)
  {
    hide HeadOf, TailSize, Formed, HeadBytes;
    LengthIsReal(code[p..], BUDGET - p);
    TailBound(HeadOf(code[p..]).value);
    assert EndsAt(code, p, p + l);
    forall q | p < q < p + l ensures !Boundary(code, q) {
      NoBoundaryInside(code, p, p + l, q);
    }
  }

  /** One byte of port access and one instruction of fifteen bytes. */
  lemma TwoInstructions(g: Head, h: Head, tail: seq<byte>, code: seq<byte>)
    requires |code| == 16 && Formed(g) && HeadBytes(g) == code[..1] && TailSize(g) == 0 && Counted(g) == 1
    requires Formed(h) && |tail| == TailSize(h) && Size(h) == 15 && Counted(h) == BUDGET - 1
    requires code[1..] == HeadBytes(h) + tail
    ensures WithinBudget(code) && Boundary(code, 16) && forall p :: 1 < p < 16 ==> !Boundary(code, p)
  {
    hide HeadOf, TailSize, HeadBytes, Counted, Formed;
    assert code[0..] == code && code == HeadBytes(g) + code[1..];
    HeadRoundTrip(g, code[1..]);
    HeadRoundTrip(h, tail);
    assert EndsAt(code, 0, 1) && Boundary(code, 1);
    assert EndsAt(code, 1, 16) && Boundary(code, 16);
    forall p | 1 < p < 16 ensures !Boundary(code, p) {
      NoBoundaryInside(code, 1, 16, p);
    }
  }

  /** The bound 16 is reached: IN AL,DX, four prefixes, and ADD [EAX+EAX+disp32], imm32. */
  lemma SweepBoundIsTight()
    ensures exists code :: |code| == 16 && WithinBudget(code) && Boundary(code, 16)
                           && forall p :: 1 < p < 16 ==> !Boundary(code, p)
  {
    hide HeadOf, Boundary, WithinBudget;
    var g := Head([], One(0xec), None, None);
    var h := Head([0x26, 0x26, 0x26, 0x26], One(0x81), Some(0x84), Some(0));
    var tail: seq<byte> := [0, 0, 0, 0, 0, 0, 0, 0];
    var b := [0x26, 0x26, 0x26, 0x26, 0x81, 0x84, 0];
    assert HeadBytes(h) == b;
    var code: seq<byte> := [0xec] + (b + tail);
    assert code[1..] == b + tail && code[..1] == [0xec] == HeadBytes(g);
    TwoInstructions(g, h, tail, code);
  }
}
