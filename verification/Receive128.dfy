/** The receiver of the 12.8 MHz module. It never looks at the level of a stuffed bit but takes for granted that the
    line toggles there, and it finds the end of a packet by samples between two bits. */
module Receive128 {
  import opened Bits
  import opened Avr
  import opened LineCode
  import opened Receive
  import opened LineRoundTrip

  // ---- What it receives ----

  /** One bit; after a sixth one the line is taken to toggle. */
  function Assume(line: seq<Symbol>, s: Rx): Rx {
    var u := TakeBit(line, s);
    if u.run == 6 then Rx(u.t + 1, !u.level, 0) else u
  }

  function Bits128(line: seq<Symbol>, s: Rx, n: nat): (bits: seq<bool>)
    ensures |bits| == n
    decreases n
  {
    if n == 0 then [] else [NextBit(line, s)] + Bits128(line, Assume(line, s), n - 1)
  }

  function Bits128State(line: seq<Symbol>, s: Rx, n: nat): Rx
    decreases n
  {
    if n == 0 then s else Bits128State(line, Assume(line, s), n - 1)
  }

  /** A sample between bit times `t` and `t + 1` may show either of the two symbols: `late(t)` says which. */
  function Between(line: seq<Symbol>, late: nat -> bool, t: nat): Symbol {
    Sample(line, if late(t) then t + 1 else t)
  }

  /** The tests for SE0 around bits 0 and 1 of a byte: on the stuffed bit after bit 0 if there is one; and if D- is
      low in both bits, on the sample between them. */
  predicate Ends128(line: seq<Symbol>, late: nat -> bool, s: Rx) {
    var u, v := TakeBit(line, s), Assume(line, s);
    || (u.run == 6 && Sample(line, u.t) == SE0)
    || (!v.level && !Minus(Sample(line, v.t)) && Between(line, late, v.t - 1) == SE0)
  }

  /** The outcome from the start of a byte on. */
  function Listen128(line: seq<Symbol>, late: nat -> bool, s: Rx, got: seq<byte>): Outcome
    requires |got| <= BUFSIZE
    decreases BUFSIZE - |got|, 1
  {
    if got != [] && Ends128(line, late, s) then Packet(got) else Rest128(line, late, s, got)
  }

  /** The outcome if the packet does not end here. */
  function Rest128(line: seq<Symbol>, late: nat -> bool, s: Rx, got: seq<byte>): Outcome
    requires |got| <= BUFSIZE
    decreases BUFSIZE - |got|, 0
  {
    if |got| == BUFSIZE then Overflow(got)
    else Listen128(line, late, Bits128State(line, s, 8), got + [ByteOf(Bits128(line, s, 8))])
  }

  lemma {:induction false} Joined128(line: seq<Symbol>, s: Rx, n: nat, m: nat)
    ensures Bits128(line, s, n + m) == Bits128(line, s, n) + Bits128(line, Bits128State(line, s, n), m)
    ensures Bits128State(line, s, n + m) == Bits128State(line, Bits128State(line, s, n), m)
    decreases n
  {
    hide Assume, NextBit;
    if n > 0 {
      Joined128(line, Assume(line, s), n - 1, m);
    }
  }

  // ---- The window ----

  /** Positions hold a 1 where the line toggled: the last `run` of them are 0 and the one before is 1. */
  ghost predicate Window128(shift: Reg, i: nat, run: nat)
    requires i <= 8
  {
    && run <= 5
    && (forall p :: 0 <= p < 8 ==> (Age(i, p) <= run ==> !shift[p]) && (Age(i, p) == run + 1 <= 5 ==> shift[p]))
  }

  /** The operand of `andi shift, ~(7 << i)`. */
  function ClearFrom(i: nat): Reg {
    seq(8, j requires 0 <= j < 8 => j != i && j != i + 1 && j != i + 2)
  }

  /** `andi` and branch for a bit at which the line has not toggled: exactly a sixth one branches. */
  method TestOnes(shift0: Reg, i: nat, ghost run: nat) returns (shift: Reg, sixOnes: bool)
    requires i < 8 && Window128(shift0, i, run)
    ensures sixOnes == (run == 5)
    ensures forall p :: 0 <= p < 8 ==> shift[p] == (p != i && p != i + 1 && p != i + 2 && shift0[p])
  {
    hide ByteOf;
    ghost var sentinel := if run + 1 <= i then i - run - 1 else i + 7 - run;
    assert run < 5 ==> Age(i, sentinel) == run + 1 && shift0[sentinel];
    shift := And(shift0, ClearFrom(i));
    SmallValues(shift);
    assert forall p :: 0 <= p < 8 ==> shift[p] == (p != i && p != i + 1 && p != i + 2 && shift0[p]);
    assert run < 5 ==> shift[sentinel];
    if i < 6 {
      sixOnes := ByteOf(shift) == 0;
    } else if i == 6 {
      sixOnes := ByteOf(shift) < 2;
    } else {
      sixOnes := ByteOf(shift) < 4;
    }
  }

  /** One bit: there are two copies of the code, one for each level; a toggle or a sixth one leads to the other. The
      code for bit 1 after a high level clears the three positions before it samples. */
  method ReceiveBit128(line: seq<Symbol>, i: nat, shift0: Reg, fix0: Reg, level0: bool, t0: nat, ghost s: Rx,
                       ghost bits: seq<bool>)
    returns (shift: Reg, fix: Reg, level: bool, t: nat, sixOnes: bool)
    requires i < 8 && s.t == t0 && s.level == level0 && Window128(shift0, i, s.run) && Partial(shift0, fix0, i, bits)
    ensures var u := Assume(line, s); u.t == t && u.level == level && Window128(shift, i + 1, u.run)
    ensures Partial(shift, fix, i + 1, bits + [NextBit(line, s)]) && sixOnes == (TakeBit(line, s).run == 6)
  {
    hide And, ClearFrom, Sample, Minus;
    shift, fix, level, t, sixOnes := shift0, fix0, level0, t0 + 1, false;
    if Minus(Sample(line, t0)) != level0 {
      level := !level;
      if i == 1 && level0 {
        shift := Clear3(shift, i);
      }
      shift := shift[i := true];
    } else {
      shift, sixOnes := TestOnes(shift, i, s.run);
      if sixOnes {
        fix := fix[i := false];
        t := t + 1;
        level := !level;
        shift := shift[i := true];
      }
    }
  }

  method Clear3(shift0: Reg, i: nat) returns (shift: Reg)
    requires i < 8
    ensures forall p :: 0 <= p < 8 ==> shift[p] == (p != i && p != i + 1 && p != i + 2 && shift0[p])
  {
    shift := And(shift0, ClearFrom(i));
  }

  /** The first three bits are sampled as levels and decoded together: the register exclusive-or itself shifted by
      one; its top bit keeps the unstuffing off. */
  method FirstBits128(line: seq<Symbol>) returns (shift: Reg, level: bool, t: nat)
    ensures var s := Bits128State(line, AFTER_SYNC, 3);
            && s.t == t == 3 && s.level == level && Window128(shift, 3, s.run)
            && Partial(shift, Not(Zeros(8)), 3, Bits128(line, AFTER_SYNC, 3))
  {
    var a, b, c := Minus(Sample(line, 0)), Minus(Sample(line, 1)), Minus(Sample(line, 2));
    hide Sample, Minus;
    shift := Zeros(7) + [true];
    shift := shift[0 := a];
    shift := shift[1 := b];
    var data := shift;
    var carry;
    shift, carry := Lsl(shift);
    if c {
      data := data[2 := true];
      data := data[3 := true];
    }
    shift := Xor(shift, data);
    level, t := data[3], 3;
    assert shift == [a, a != b, b != c, c, false, false, false, true];
    ThreeBits(line);
  }

  lemma ThreeBits(line: seq<Symbol>)
    ensures var a, b, c := Minus(Sample(line, 0)), Minus(Sample(line, 1)), Minus(Sample(line, 2));
            && Bits128(line, AFTER_SYNC, 3) == [!a, a == b, b == c]
            && Bits128State(line, AFTER_SYNC, 3) == Rx(3, c, if b != c then 0 else if a != b then 1 else if a then 2 else 3)
  {
    hide Sample, Minus;
    var s1 := Assume(line, AFTER_SYNC);
    var s2 := Assume(line, s1);
    var s3 := Assume(line, s2);
    assert Bits128State(line, s3, 0) == s3;
    assert Bits128State(line, s2, 1) == s3;
    assert Bits128State(line, s1, 2) == s3;
    assert Bits128(line, s2, 1) == [NextBit(line, s2)];
    assert Bits128(line, s1, 2) == [NextBit(line, s1), NextBit(line, s2)];
  }

  /** Bits `i0` to `i1 - 1` of a byte. */
  method ReceiveBits128(line: seq<Symbol>, i0: nat, i1: nat, shift0: Reg, fix0: Reg, level0: bool, t0: nat,
                        ghost s0: Rx, ghost bits0: seq<bool>)
    returns (shift: Reg, fix: Reg, level: bool, t: nat)
    requires i0 <= i1 <= 8 && s0.t == t0 && s0.level == level0
    requires Window128(shift0, i0, s0.run) && Partial(shift0, fix0, i0, bits0)
    ensures var u := Bits128State(line, s0, i1 - i0); u.t == t && u.level == level && Window128(shift, i1, u.run)
    ensures Partial(shift, fix, i1, bits0 + Bits128(line, s0, i1 - i0))
  {
    hide Window128, Partial, Assume, NextBit;
    shift, fix, level, t := shift0, fix0, level0, t0;
    ghost var s, k := s0, 0;
    var i := i0;
    assert bits0 + [] == bits0;
    while i < i1
      invariant i0 <= i <= i1 && k == i - i0 && s == Bits128State(line, s0, k) && s.t == t && s.level == level
      invariant Window128(shift, i, s.run) && Partial(shift, fix, i, bits0 + Bits128(line, s0, k))
    {
      OneMore128(line, s0, k);
      var sixOnes;
      shift, fix, level, t, sixOnes := ReceiveBit128(line, i, shift, fix, level, t, s, bits0 + Bits128(line, s0, k));
      assert bits0 + (Bits128(line, s0, k) + [NextBit(line, s)]) == bits0 + Bits128(line, s0, k) + [NextBit(line, s)];
      s := Assume(line, s);
      k := k + 1;
      i := i + 1;
    }
  }

  lemma OneMore128(line: seq<Symbol>, s: Rx, n: nat)
    ensures var u := Bits128State(line, s, n);
            && Bits128(line, s, n + 1) == Bits128(line, s, n) + [NextBit(line, u)]
            && Bits128State(line, s, n + 1) == Assume(line, u)
  {
    hide Assume, NextBit;
    var u := Bits128State(line, s, n);
    Joined128(line, s, n, 1);
    assert Bits128State(line, Assume(line, u), 0) == Assume(line, u);
  }

  lemma ByteIs(shift: Reg, fix: Reg, bits: seq<bool>)
    requires Partial(shift, fix, 8, bits)
    ensures Xor(fix, shift) == bits
  {
  }

  lemma NextByte(shift: Reg, run: nat)
    requires Window128(shift, 8, run)
    ensures Window128(shift, 0, run)
  {
  }

  lemma FreshFix(shift: Reg)
    ensures Partial(shift, Not(Zeros(8)), 0, [])
  {
  }

  /** The receiver loop, entered at bit 3 of the first byte: a byte is stored when three bits of the next one are in,
      or when the packet ends; the count goes down before bit 6. On every line, whatever the samples between the bits
      show, this is what the receiver hears. */
  method UsbReceive128(line: seq<Symbol>, late: nat -> bool, buf: array<byte>, y0: nat)
    returns (accepted: bool, cnt: byte, y: nat)
    requires y0 + BUFSIZE <= buf.Length
    modifies buf
    ensures var o := Listen128(line, late, AFTER_SYNC, []);
            && accepted == o.Packet?
            && |o.bytes| <= BUFSIZE && Stored(old(buf[..]), buf[..], y0, o.bytes)
            && (accepted ==> cnt == |o.bytes| && y == y0)
  {
    hide Listen128, Rest128, Window128, Partial, Bits128, Bits128State, Ends128, Assume, TakeBit, ByteOf, Stored,
         Sample, Between, Xor;
    y, cnt := y0, BUFSIZE;
    var shift, level, t := FirstBits128(line);
    var fix: Reg := Not(Zeros(8));
    ghost var s0, got: seq<byte> := AFTER_SYNC, [];
    ghost var goal := Listen128(line, late, AFTER_SYNC, []);
    FirstByte(line, late);
    StoredNothing(buf[..], y0);
    accepted := false;
    while true
      invariant y == y0 + |got| && |got| <= BUFSIZE && cnt == BUFSIZE - |got|
      invariant goal == Rest128(line, late, s0, got)
      invariant var s := Bits128State(line, s0, 3); s.t == t && s.level == level && Window128(shift, 3, s.run)
      invariant Partial(shift, fix, 3, Bits128(line, s0, 3))
      invariant Stored(old(buf[..]), buf[..], y0, got)
      decreases BUFSIZE - |got|
    {
      Joined128(line, s0, 3, 3);
      Joined128(line, s0, 6, 2);
      shift, fix, level, t := ReceiveBits128(line, 3, 6, shift, fix, level, t, Bits128State(line, s0, 3),
                                                Bits128(line, s0, 3));
      var borrow;
      cnt, borrow := Subi(cnt, 1);
      RestIs(line, late, s0, got);
      if borrow {
        break;
      }
      shift, fix, level, t := ReceiveBits128(line, 6, 8, shift, fix, level, t, Bits128State(line, s0, 6),
                                                Bits128(line, s0, 6));
      ByteIs(shift, fix, Bits128(line, s0, 8));
      s0 := Bits128State(line, s0, 8);
      var data := Xor(fix, shift);
      fix := Not(Zeros(8));
      NextByte(shift, s0.run);
      FreshFix(shift);
      got := got + [ByteOf(data)];
      HeadIs(line, late, s0, got);
      var sixOnes;
      shift, fix, level, t, sixOnes := ReceiveBit128(line, 0, shift, fix, level, t, s0, []);
      EndsIs(line, late, s0);
      StoreNext(old(buf[..]), buf[..], y0, got[..|got| - 1], ByteOf(data));
      assert got == got[..|got| - 1] + [ByteOf(data)];
      if (sixOnes && Sample(line, t - 1) == SE0) ||
         (!level && !Minus(Sample(line, t)) && Between(line, late, t - 1) == SE0) {
        // se0AndStore
        buf[y] := ByteOf(data);
        y := y + 1;
        accepted := true;
        break;
      }
      Joined128(line, s0, 1, 2);
      OneBit(line, s0);
      shift, fix, level, t := ReceiveBits128(line, 1, 3, shift, fix, level, t, Assume(line, s0),
                                                [] + [NextBit(line, s0)]);
      buf[y] := ByteOf(data);
      y := y + 1;
    }
    if accepted {
      // se0: subi cnt, USB_BUFSIZE; neg cnt; sub YL, cnt
      var borrow;
      cnt, borrow := Subi(cnt, BUFSIZE);
      cnt, borrow := Subi(0, cnt);
      y := y - cnt;
    }
  }

  lemma FirstByte(line: seq<Symbol>, late: nat -> bool)
    ensures Listen128(line, late, AFTER_SYNC, []) == Rest128(line, late, AFTER_SYNC, [])
  {
  }

  lemma RestIs(line: seq<Symbol>, late: nat -> bool, s: Rx, got: seq<byte>)
    requires |got| <= BUFSIZE
    ensures |got| == BUFSIZE ==> Rest128(line, late, s, got) == Overflow(got)
    ensures |got| < BUFSIZE ==> Rest128(line, late, s, got)
                                == Listen128(line, late, Bits128State(line, s, 8), got + [ByteOf(Bits128(line, s, 8))])
  {
    hide Listen128, Bits128, Bits128State, ByteOf;
  }

  lemma HeadIs(line: seq<Symbol>, late: nat -> bool, s: Rx, got: seq<byte>)
    requires 0 < |got| <= BUFSIZE
    ensures Listen128(line, late, s, got) == if Ends128(line, late, s) then Packet(got) else Rest128(line, late, s, got)
  {
    hide Ends128, Rest128;
  }

  lemma EndsIs(line: seq<Symbol>, late: nat -> bool, s: Rx)
    ensures var u, v := TakeBit(line, s), Assume(line, s);
            && v.t > 0 && Ends128(line, late, s) ==
               ((u.run == 6 && Sample(line, v.t - 1) == SE0) ||
                (!v.level && !Minus(Sample(line, v.t)) && Between(line, late, v.t - 1) == SE0))
  {
    hide Between, Sample;
  }

  lemma OneBit(line: seq<Symbol>, s: Rx)
    ensures Bits128(line, s, 1) == [] + [NextBit(line, s)] && Bits128State(line, s, 1) == Assume(line, s)
  {
    hide NextBit, Assume;
    assert Bits128(line, Assume(line, s), 0) == [];
    assert Bits128State(line, Assume(line, s), 0) == Assume(line, s);
  }

  // ---- Agreement with the receiver that samples every bit ----

  /** If the next bit is a sixth one, the line toggles after it. */
  predicate Toggles(line: seq<Symbol>, s: Rx) {
    var u := TakeBit(line, s);
    u.run == 6 ==> Minus(Sample(line, u.t)) != u.level
  }

  function NextState(line: seq<Symbol>, s: Rx): Rx { DropStuffed(line, TakeBit(line, s)) }

  /** Correctly stuffed for the next `n` bits. */
  predicate WellStuffed(line: seq<Symbol>, s: Rx, n: nat)
    decreases n
  {
    n == 0 || (Toggles(line, s) && WellStuffed(line, NextState(line, s), n - 1))
  }

  /** The next `n` bits of the receiver that samples every bit. */
  function PlainBits(line: seq<Symbol>, s: Rx, n: nat): (bits: seq<bool>)
    ensures |bits| == n
    decreases n
  {
    if n == 0 then [] else [NextBit(line, s)] + PlainBits(line, NextState(line, s), n - 1)
  }

  function PlainState(line: seq<Symbol>, s: Rx, n: nat): Rx
    decreases n
  {
    if n == 0 then s else PlainState(line, NextState(line, s), n - 1)
  }

  lemma {:induction false} SameBits(line: seq<Symbol>, s: Rx, n: nat)
    requires WellStuffed(line, s, n)
    ensures Bits128(line, s, n) == PlainBits(line, s, n) && Bits128State(line, s, n) == PlainState(line, s, n)
    decreases n
  {
    hide NextBit, Sample, Minus;
    if n > 0 {
      assert Assume(line, s) == NextState(line, s);
      SameBits(line, NextState(line, s), n - 1);
    }
  }

  lemma {:induction false} Joined(line: seq<Symbol>, s: Rx, n: nat, m: nat)
    ensures PlainBits(line, s, n + m) == PlainBits(line, s, n) + PlainBits(line, PlainState(line, s, n), m)
    ensures PlainState(line, s, n + m) == PlainState(line, PlainState(line, s, n), m)
    ensures WellStuffed(line, s, n + m) <==> WellStuffed(line, s, n) && WellStuffed(line, PlainState(line, s, n), m)
    decreases n
  {
    hide Toggles, NextState, NextBit;
    if n > 0 {
      Joined(line, NextState(line, s), n - 1, m);
    }
  }

  /** The receiver that samples every bit takes a byte at a time. */
  lemma {:induction false} ByteIsPlain(line: seq<Symbol>, s: Rx, got: seq<byte>, partial: seq<bool>)
    requires |got| < BUFSIZE && |partial| <= 8
    ensures var n := 8 - |partial|;
            ListenByte(line, s, got, partial)
            == Listen(line, PlainState(line, s, n), got + [ByteOf(partial + PlainBits(line, s, n))])
    decreases 8 - |partial|
  {
    hide Listen, NextBit, TakeBit, DropStuffed, ByteOf;
    if |partial| == 8 {
      assert partial + [] == partial;
    } else {
      ListenByteUnfold(line, s, got, partial);
      ByteIsPlain(line, NextState(line, s), got, partial + [NextBit(line, s)]);
      assert partial + [NextBit(line, s)] + PlainBits(line, NextState(line, s), 7 - |partial|)
          == partial + PlainBits(line, s, 8 - |partial|);
    }
  }

  lemma ListenIsPlain(line: seq<Symbol>, s: Rx, got: seq<byte>)
    requires |got| <= BUFSIZE
    ensures Listen(line, s, got) ==
            if got != [] && Sample(line, s.t + 1) == SE0 then Packet(got)
            else if |got| == BUFSIZE then Overflow(got)
            else Listen(line, PlainState(line, s, 8), got + [ByteOf(PlainBits(line, s, 8))])
  {
    hide ByteOf, NextBit, DropStuffed;
    if |got| < BUFSIZE {
      ByteIsPlain(line, NextState(line, s), got, [NextBit(line, s)]);
      assert PlainBits(line, s, 8) == [NextBit(line, s)] + PlainBits(line, NextState(line, s), 7);
      assert PlainState(line, s, 8) == PlainState(line, NextState(line, s), 7);
    }
  }

  /** A byte boundary at which the test of the 12 MHz receiver, SE0 behind bit 0, and the two tests here come to the
      same, whatever the samples between two bits show. */
  predicate ExactEnd(line: seq<Symbol>, s: Rx) {
    var u := TakeBit(line, s);
    if u.run == 6 then Sample(line, s.t + 1) == SE0 || !(u.level && Sample(line, s.t + 2) == SE0)
    else Minus(Sample(line, s.t + 1)) || (Sample(line, s.t) == SE0 <==> Sample(line, s.t + 1) == SE0)
  }

  /** Every boundary from `s` on, the first one only if bytes have been received. */
  predicate ExactEnds(line: seq<Symbol>, s: Rx, some: bool, n: nat)
    decreases n
  {
    && (some ==> ExactEnd(line, s))
    && (n > 0 ==> ExactEnds(line, PlainState(line, s, 8), true, n - 1))
  }

  lemma SameEnd(line: seq<Symbol>, late: nat -> bool, s: Rx)
    requires ExactEnd(line, s)
    ensures Ends128(line, late, s) <==> Sample(line, s.t + 1) == SE0
  {
    hide Sample;
  }

  /** Otherwise a constant choice of the samples tells the receivers apart. */
  lemma OtherEnd(line: seq<Symbol>, s: Rx) returns (late: nat -> bool)
    requires !ExactEnd(line, s)
    ensures Ends128(line, late, s) <==> Sample(line, s.t + 1) != SE0
  {
    hide Sample;
    if TakeBit(line, s).run == 6 {
      late := t => true;
    } else {
      late := t => false;
    }
  }

  lemma {:induction false} AgreeFrom(line: seq<Symbol>, late: nat -> bool, s: Rx, got: seq<byte>, n: nat)
    requires |got| <= BUFSIZE && n == |Listen(line, s, got).bytes| - |got|
    requires WellStuffed(line, s, 8 * n) && ExactEnds(line, s, got != [], n)
    ensures Listen128(line, late, s, got) == Listen(line, s, got)
    decreases BUFSIZE - |got|
  {
    hide Listen, PlainBits, PlainState, Bits128, Bits128State, ExactEnd, ByteOf, WellStuffed, Ends128;
    ListenIsPlain(line, s, got);
    if got != [] { SameEnd(line, late, s); }
    if |got| < BUFSIZE && !(got != [] && Sample(line, s.t + 1) == SE0) {
      var next := got + [ByteOf(PlainBits(line, s, 8))];
      ListenExtends(line, PlainState(line, s, 8), next);
      Joined(line, s, 8, 8 * (n - 1));
      SameBits(line, s, 8);
      AgreeFrom(line, late, PlainState(line, s, 8), next, n - 1);
    }
  }

  /** At a boundary that is not exact one receiver ends and the other goes on, and then their outcomes differ. */
  lemma DifferHere(line: seq<Symbol>, late: nat -> bool, s: Rx, got: seq<byte>)
    requires 0 < |got| <= BUFSIZE && (Ends128(line, late, s) <==> Sample(line, s.t + 1) != SE0)
    ensures Listen128(line, late, s, got) != Listen(line, s, got)
  {
    hide Listen, PlainBits, PlainState, Bits128, Bits128State, ByteOf, Ends128;
    ListenIsPlain(line, s, got);
    if |got| < BUFSIZE {
      EndedThere(line, late, Bits128State(line, s, 8), got + [ByteOf(Bits128(line, s, 8))]);
      ListenExtends(line, PlainState(line, s, 8), got + [ByteOf(PlainBits(line, s, 8))]);
    }
  }

  lemma {:induction false} DifferFrom(line: seq<Symbol>, s: Rx, got: seq<byte>, n: nat) returns (late: nat -> bool)
    requires |got| <= BUFSIZE && n == |Listen(line, s, got).bytes| - |got|
    requires WellStuffed(line, s, 8 * n) && !ExactEnds(line, s, got != [], n)
    ensures Listen128(line, late, s, got) != Listen(line, s, got)
    decreases BUFSIZE - |got|
  {
    hide Listen, PlainBits, PlainState, Bits128, Bits128State, ExactEnd, ByteOf, WellStuffed, Ends128;
    if got != [] && !ExactEnd(line, s) {
      late := OtherEnd(line, s);
      DifferHere(line, late, s, got);
    } else {
      ListenIsPlain(line, s, got);
      var next := got + [ByteOf(PlainBits(line, s, 8))];
      if |got| < BUFSIZE { ListenExtends(line, PlainState(line, s, 8), next); }
      Joined(line, s, 8, 8 * (n - 1));
      SameBits(line, s, 8);
      late := DifferFrom(line, PlainState(line, s, 8), next, n - 1);
      if got != [] { SameEnd(line, late, s); }
    }
  }

  /** On a correctly stuffed line the two receivers have the same outcome, whatever the samples between two bits show, if
      and only if every byte boundary is exact. */
  lemma ReceiversAgree(line: seq<Symbol>)
    requires WellStuffed(line, AFTER_SYNC, 8 * |Listen(line, AFTER_SYNC, []).bytes|)
    ensures (forall late: nat -> bool :: Listen128(line, late, AFTER_SYNC, []) == Listen(line, AFTER_SYNC, []))
            <==> ExactEnds(line, AFTER_SYNC, false, |Listen(line, AFTER_SYNC, []).bytes|)
  {
    hide Listen, Listen128, WellStuffed, ExactEnds;
    var n := |Listen(line, AFTER_SYNC, []).bytes|;
    if ExactEnds(line, AFTER_SYNC, false, n) {
      forall late: nat -> bool ensures Listen128(line, late, AFTER_SYNC, []) == Listen(line, AFTER_SYNC, []) {
        AgreeFrom(line, late, AFTER_SYNC, [], n);
      }
    } else {
      var late := DifferFrom(line, AFTER_SYNC, [], n);
      assert Listen128(line, late, AFTER_SYNC, []) != Listen(line, AFTER_SYNC, []);
    }
  }

  // ---- Lines that a transmitter made ----

  lemma StuffedBitToggles(line: seq<Symbol>, s: Rx, rest: seq<bool>)
    requires s.run == 5 && Carries(line, s.t, Encode([true] + rest, 5, s.level))
    ensures Minus(Sample(line, s.t)) == s.level && Minus(Sample(line, s.t + 1)) != s.level
  {
    hide Encode, Carries;
    var l := s.level;
    EncodeSixthOne(rest, l);
    assert [l, !l] + Encode(rest, 0, !l) == [l] + ([!l] + Encode(rest, 0, !l));
    CarriesNext(line, s.t, l, [!l] + Encode(rest, 0, !l));
    CarriesNext(line, s.t + 1, !l, Encode(rest, 0, !l));
  }

  lemma {:induction false} SentIsWellStuffed(line: seq<Symbol>, s: Rx, bits: seq<bool>)
    requires s.run < 6 && Carries(line, s.t, Encode(bits, s.run, s.level))
    ensures WellStuffed(line, s, |bits|) && PlainBits(line, s, |bits|) == bits
    decreases |bits|
  {
    hide Encode, Carries, Sample, Minus;
    if bits != [] {
      var rest := bits[1..];
      assert bits == [bits[0]] + rest;
      InStep(line, s, bits[0], rest);
      if s.run == 5 && bits[0] {
        StuffedBitToggles(line, s, rest);
      }
      SentIsWellStuffed(line, NextState(line, s), rest);
    }
  }


  lemma NoSe0Yet(line: seq<Symbol>, s: Rx, bit: bool, rest: seq<bool>)
    requires s.run < 6 && Carries(line, s.t, Encode([bit] + rest, s.run, s.level))
    ensures Sample(line, s.t) != SE0 && (s.run == 5 && bit ==> Sample(line, s.t + 1) != SE0)
  {
    hide Encode, Carries;
    LooksAhead(line, s.t, [bit] + rest, s.run, s.level);
    if s.run == 5 && bit {
      var l := s.level;
      EncodeSixthOne(rest, l);
      assert [l, !l] + Encode(rest, 0, !l) == [l] + ([!l] + Encode(rest, 0, !l));
      CarriesNext(line, s.t, l, [!l] + Encode(rest, 0, !l));
      CarriesNext(line, s.t + 1, !l, Encode(rest, 0, !l));
    }
  }

  lemma {:induction false} StillCarries(line: seq<Symbol>, s: Rx, bits: seq<bool>, k: nat)
    requires s.run < 6 && k <= |bits| && Carries(line, s.t, Encode(bits, s.run, s.level))
    ensures var u := PlainState(line, s, k); u.run < 6 && Carries(line, u.t, Encode(bits[k..], u.run, u.level))
    decreases k
  {
    hide Encode, Carries, Sample, Minus;
    if k == 0 {
      assert bits[0..] == bits;
    } else {
      assert bits == [bits[0]] + bits[1..];
      InStep(line, s, bits[0], bits[1..]);
      StillCarries(line, NextState(line, s), bits[1..], k - 1);
      assert bits[1..][k - 1..] == bits[k..];
    }
  }

  /** Before a whole byte that was sent, and at the end of what was sent. */
  lemma SentIsExact(line: seq<Symbol>, s: Rx, bits: seq<bool>)
    requires s.run < 6 && Carries(line, s.t, Encode(bits, s.run, s.level)) && |bits| != 1
    ensures ExactEnd(line, s)
  {
    hide Encode, Carries, Sample, Minus;
    if bits == [] {
      EndOfPacket(line, s);
    } else {
      var rest := bits[1..];
      assert bits == [bits[0]] + rest;
      InStep(line, s, bits[0], rest);
      NoSe0Yet(line, s, bits[0], rest);
      var u := NextState(line, s);
      LooksAhead(line, u.t, rest, u.run, u.level);
    }
  }

  lemma EndOfPacket(line: seq<Symbol>, s: Rx)
    requires s.run < 6 && Carries(line, s.t, Encode([], s.run, s.level))
    ensures Sample(line, s.t) == SE0 && Sample(line, s.t + 1) == SE0
  {
    assert Encode([], s.run, s.level) == [];
  }

  lemma {:induction false} SentIsExactThroughout(line: seq<Symbol>, s: Rx, bits: seq<bool>, some: bool, n: nat)
    requires s.run < 6 && Carries(line, s.t, Encode(bits, s.run, s.level)) && |bits| == 8 * n
    ensures ExactEnds(line, s, some, n)
    decreases n
  {
    hide Encode, Carries, ExactEnd, PlainState;
    SentIsExact(line, s, bits);
    if n > 0 {
      StillCarries(line, s, bits, 8);
      SentIsExactThroughout(line, PlainState(line, s, 8), bits[8..], true, n - 1);
    }
  }

  /** What a packet has ended with: so many bytes, and an SE0 behind them. */
  lemma {:induction false} EndedThere(line: seq<Symbol>, late: nat -> bool, s: Rx, got: seq<byte>)
    requires |got| <= BUFSIZE
    ensures var o := Listen128(line, late, s, got);
            && |got| <= |o.bytes| && (o.Packet? ==> Ends128(line, late, Bits128State(line, s, 8 * (|o.bytes| - |got|))))
    decreases BUFSIZE - |got|
  {
    hide Ends128, Bits128, Bits128State, ByteOf;
    Joined128(line, s, 0, 0);
    assert Bits128State(line, s, 0) == s by { NoBits(line, s); }
    if |got| < BUFSIZE && !(got != [] && Ends128(line, late, s)) {
      var u, next := Bits128State(line, s, 8), got + [ByteOf(Bits128(line, s, 8))];
      EndedThere(line, late, u, next);
      Joined128(line, s, 8, 8 * (|Listen128(line, late, u, next).bytes| - |next|));
    }
  }

  lemma NoBits(line: seq<Symbol>, s: Rx)
    ensures Bits128State(line, s, 0) == s
  {
  }

  /** Every message whose first byte does not start with five ones comes back through this receiver too. */
  lemma RoundTrip128(data: seq<byte>, late: nat -> bool)
    requires 0 < |data| <= BUFSIZE && data[0] % 32 != 31
    ensures Listen128(Heard(data), late, AFTER_SYNC, []) == Packet(data)
  {
    hide Encode, Carries, Heard, Listen, Listen128, BitStream, WellStuffed, ExactEnds;
    var line, bits := Heard(data), BitStream(data);
    RoundTrip(data);
    FiveOnesByte(data);
    AfterSync(data);
    ReceivedEncode(bits);
    SentIsWellStuffed(line, AFTER_SYNC, bits);
    SentIsExactThroughout(line, AFTER_SYNC, bits, false, |data|);
    ReceiversAgree(line);
  }

  /** One bit that was sent is not taken for the end. */
  lemma BitIsNoEnd(line: seq<Symbol>, s: Rx, bit: bool)
    requires s.run < 6 && Carries(line, s.t, Encode([bit] + [], s.run, s.level))
    ensures !Ends128(line, _ => false, s)
  {
    hide Encode, Carries, Sample, Minus;
    NoSe0Yet(line, s, bit, []);
    InStep(line, s, bit, []);
  }

  /** Where the bytes are over the last bit of the message is still to come. */
  lemma OneBitLeft(line: seq<Symbol>, bits: seq<bool>, n: nat)
    requires |bits| == n + 1 && Carries(line, 0, Encode(bits, 0, false))
    ensures !Ends128(line, _ => false, Bits128State(line, AFTER_SYNC, n))
  {
    hide Encode, Carries, Ends128, WellStuffed, PlainState, Bits128State;
    SentIsWellStuffed(line, AFTER_SYNC, bits);
    Joined(line, AFTER_SYNC, n, 1);
    SameBits(line, AFTER_SYNC, n);
    StillCarries(line, AFTER_SYNC, bits, n);
    assert bits[n..] == [bits[n]] + [];
    BitIsNoEnd(line, PlainState(line, AFTER_SYNC, n), bits[n]);
  }

  /** With samples that show the earlier bit, a message that does start so never comes back: where its bytes are over
      there is one bit left on the line, and this receiver does not take the SE0 behind it for the end. */
  lemma SpoiltFor128(data: seq<byte>)
    requires 0 < |data| <= BUFSIZE && data[0] % 32 == 31
    ensures Listen128(Heard(data), _ => false, AFTER_SYNC, []) != Packet(data)
  {
    hide Encode, Carries, Heard, Listen128, BitStream, Ends128, Bits128State;
    var bits := BitStream(data);
    FiveOnesByte(data);
    AfterSync(data);
    ReceivedEncode(bits);
    OneBitLeft(Heard(data), LineRoundTrip.Received(bits), 8 * |data|);
    EndedThere(Heard(data), _ => false, AFTER_SYNC, []);
  }

  /** The exact condition for this receiver. The other one accepts a few messages more. */
  lemma RoundTrip128Exactly(data: seq<byte>)
    requires 0 < |data| <= BUFSIZE
    ensures (forall late: nat -> bool :: Listen128(Heard(data), late, AFTER_SYNC, []) == Packet(data))
            <==> data[0] % 32 != 31
  {
    if data[0] % 32 == 31 {
      SpoiltFor128(data);
    } else {
      forall late: nat -> bool ensures Listen128(Heard(data), late, AFTER_SYNC, []) == Packet(data) {
        RoundTrip128(data, late);
      }
    }
  }

  /** Every line that a transmitter made is correctly stuffed. */
  lemma TransmittedIsWellStuffed(data: seq<byte>)
    requires data != []
    ensures WellStuffed(Heard(data), AFTER_SYNC, 8 * |data|)
  {
    hide Encode, Carries, Heard, BitStream, WellStuffed;
    var r := LineRoundTrip.Received(BitStream(data));
    AfterSync(data);
    ReceivedEncode(BitStream(data));
    SentIsWellStuffed(Heard(data), AFTER_SYNC, r);
    Joined(Heard(data), AFTER_SYNC, 8 * |data|, |r| - 8 * |data|);
  }

  /** One byte, correctly stuffed, that the other receiver accepts and this one may not: the SE0 comes after bit 0 of
      what the receivers take for a second byte. */
  lemma ReceiversDiffer()
    ensures WellStuffed(Heard([0x1f]), AFTER_SYNC, 8)
    ensures Listen(Heard([0x1f]), AFTER_SYNC, []) == Packet([0x1f])
    ensures Listen128(Heard([0x1f]), _ => false, AFTER_SYNC, []) != Packet([0x1f])
  {
    hide Listen, Listen128, Heard, WellStuffed;
    TransmittedIsWellStuffed([0x1f]);
    FiveOnesExamples();
    SpoiltFor128([0x1f]);
  }
}
