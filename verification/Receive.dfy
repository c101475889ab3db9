/** The bit-unstuffing receiver of the 12 MHz module and what a plain run counter would receive. */
module Receive {
  import opened Bits
  import opened Avr
  import opened LineCode

  /** What the two data lines show in one bit time. */
  datatype Symbol = J | K | SE0

  /** The line at bit time `t`; after the recorded symbols the bus is idle. */
  function Sample(line: seq<Symbol>, t: nat): Symbol {
    if t < |line| then line[t] else J
  }

  /** The level of D-. */
  predicate Minus(s: Symbol) { s == J }

  // ---- The plain receiver ----

  /** Bit times consumed, the last level seen, and the ones since the last zero or dropped bit. */
  datatype Rx = Rx(t: nat, level: bool, run: nat)

  predicate NextBit(line: seq<Symbol>, s: Rx) { Minus(Sample(line, s.t)) == s.level }

  function TakeBit(line: seq<Symbol>, s: Rx): Rx {
    Rx(s.t + 1, Minus(Sample(line, s.t)), if NextBit(line, s) then s.run + 1 else 0)
  }

  /** After six ones the next bit is dropped, whatever it is. */
  function DropStuffed(line: seq<Symbol>, s: Rx): Rx {
    if s.run == 6 then Rx(s.t + 1, Minus(Sample(line, s.t)), 0) else s
  }

  /** What the receiver loop ends with: a packet of at most eleven bytes, or a full buffer. */
  datatype Outcome = Packet(bytes: seq<byte>) | Overflow(bytes: seq<byte>)

  /** Receives bytes until an SE0 shows right after the first bit of a byte, or the buffer is full. */
  function Listen(line: seq<Symbol>, s: Rx, got: seq<byte>): Outcome
    requires |got| <= BUFSIZE
    decreases BUFSIZE - |got|, 9
  {
    var s0 := TakeBit(line, s);
    if got != [] && Sample(line, s0.t) == SE0 then Packet(got)
    else if |got| == BUFSIZE then Overflow(got)
    else ListenByte(line, DropStuffed(line, s0), got, [NextBit(line, s)])
  }

  function ListenByte(line: seq<Symbol>, s: Rx, got: seq<byte>, partial: seq<bool>): Outcome
    requires |got| < BUFSIZE && |partial| <= 8
    decreases BUFSIZE - |got|, 8 - |partial|
  {
    if |partial| == 8 then Listen(line, s, got + [ByteOf(partial)])
    else ListenByte(line, DropStuffed(line, TakeBit(line, s)), got, partial + [NextBit(line, s)])
  }

  // ---- The shift register with its rotating window ----

  /** The masks 0xf9, 0xf3, 0xe7, 0xcf, 0x9f and 0x3f of the `andi` after bits 0 to 5: each clears the
      two positions that are sampled next. */
  function Mask(i: nat): Reg
    requires i < 6
  {
    seq(8, j requires 0 <= j < 8 => j != i + 1 && j != i + 2)
  }

  lemma MaskValues()
    ensures ByteOf(Mask(0)) == 0xf9 && ByteOf(Mask(1)) == 0xf3 && ByteOf(Mask(2)) == 0xe7
    ensures ByteOf(Mask(3)) == 0xcf && ByteOf(Mask(4)) == 0x9f && ByteOf(Mask(5)) == 0x3f
  {
    MaskValue(0, 0xf9, [true, false, false, true, true, true, true, true]);
    MaskValue(1, 0xf3, [true, true, false, false, true, true, true, true]);
    MaskValue(2, 0xe7, [true, true, true, false, false, true, true, true]);
    MaskValue(3, 0xcf, [true, true, true, true, false, false, true, true]);
    MaskValue(4, 0x9f, [true, true, true, true, true, false, false, true]);
    MaskValue(5, 0x3f, [true, true, true, true, true, true, false, false]);
  }

  lemma MaskValue(i: nat, v: byte, d: Reg)
    requires i < 6 && forall j :: 0 <= j < 8 ==> d[j] == (j != i + 1 && j != i + 2)
    requires v == Weigh(d)
    ensures ByteOf(Mask(i)) == v
  {
    assert Mask(i) == d;
    WeighIsValue(d);
  }

  /** How many bits ago position `p` was sampled when bit `i` is the next one. */
  function Age(i: nat, p: nat): int {
    if p < i then i - p else i + 8 - p
  }

  /** Positions hold a 1 where the line toggled, so the last `run` of them are 0 and the one before is 1;
      the `andi` of bit 5 leaves position 7 clear for the comparison of bit 6. */
  ghost predicate Window(shift: Reg, i: nat, run: nat)
    requires i <= 8
  {
    && run <= 5
    && (forall p :: 0 <= p < 8 ==> (Age(i, p) <= run ==> !shift[p]) && (Age(i, p) == run + 1 <= 5 ==> shift[p]))
    && (i == 6 ==> !shift[7])
  }

  /** The bits of the current byte so far: x3 is 0 where `shift` was changed by unstuffing. */
  ghost predicate Partial(shift: Reg, x3: Reg, i: nat, bits: seq<bool>)
    requires i <= 8
  {
    && |bits| == i
    && (forall p :: 0 <= p < i ==> (x3[p] != shift[p]) == bits[p])
    && (forall p :: i <= p < 8 ==> x3[p])
  }

  lemma SmallValues(r: Reg)
    ensures ByteOf(r) == 0 <==> forall p :: 0 <= p < 8 ==> !r[p]
    ensures ByteOf(r) < 2 <==> forall p :: 1 <= p < 8 ==> !r[p]
    ensures ByteOf(r) < 4 <==> forall p :: 2 <= p < 8 ==> !r[p]
  {
    WeighIsValue(r);
    hide ByteOf;
    forall p | 0 <= p < 8
      ensures r[p] ==> Weigh(r) >= 1 && (p >= 1 ==> Weigh(r) >= 2) && (p >= 2 ==> Weigh(r) >= 4)
    {
      if p == 0 {} else if p == 1 {} else if p == 2 {} else if p == 3 {}
      else if p == 4 {} else if p == 5 {} else if p == 6 {}
    }
  }

  /** The `andi` and branch after bit `i` was put into `shift`: it branches exactly on the sixth one. */
  method TestWindow(shift0: Reg, i: nat, ghost before: Reg, ghost run: nat) returns (shift: Reg, sixOnes: bool)
    requires i < 8 && Window(before, i, run) && shift0 == before[i := shift0[i]]
    ensures sixOnes == (run == 5 && !shift0[i])
    ensures forall p :: 0 <= p < 8 && (i >= 6 || (p != i + 1 && p != i + 2)) ==> shift[p] == shift0[p]
    ensures i == 5 ==> !shift[7]
  {
    hide ByteOf;
    ghost var sentinel := if run + 1 <= i then i - run - 1 else i + 7 - run;
    assert run < 5 ==> Age(i, sentinel) == run + 1 && before[sentinel] && sentinel != i;
    if i < 6 {
      shift := And(shift0, Mask(i));
      SmallValues(shift);
      assert run < 5 ==> shift[sentinel];
      assert shift[i] == shift0[i];
      sixOnes := ByteOf(shift) == 0;
    } else if i == 6 {
      shift := shift0;
      SmallValues(shift);
      assert run < 5 ==> shift[sentinel];
      sixOnes := ByteOf(shift) < 2;
    } else {
      shift := shift0;
      SmallValues(shift);
      assert run < 5 ==> shift[sentinel];
      sixOnes := ByteOf(shift) < 4;
    }
  }

  /** What happens after bit `i` was put into `shift`: the window test and, on the sixth one, the sampling
      of the stuffed bit, which is only remembered as the last level. */
  method Unstuff(line: seq<Symbol>, i: nat, shift0: Reg, x3_0: Reg, prev0: bool, t0: nat,
                 ghost before: Reg, ghost s: Rx, ghost bits: seq<bool>)
    returns (shift: Reg, x3: Reg, prev: bool, t: nat)
    requires i < 8 && Window(before, i, s.run) && Partial(before, x3_0, i, bits)
    requires TakeBit(line, s) == Rx(t0, prev0, if NextBit(line, s) then s.run + 1 else 0)
    requires shift0 == before[i := !NextBit(line, s)]
    ensures var s' := DropStuffed(line, TakeBit(line, s));
            s'.t == t && s'.level == prev && Window(shift, i + 1, s'.run)
    ensures Partial(shift, x3, i + 1, bits + [NextBit(line, s)])
  {
    var sixOnes;
    shift, sixOnes := TestWindow(shift0, i, before, s.run);
    x3, prev, t := x3_0, prev0, t0;
    if sixOnes {
      x3 := x3[i := false];
      shift := shift[i := true];
      prev := Minus(Sample(line, t));
      t := t + 1;
    }
  }

  /** One bit of the receiver loop: sample, compare with the last level, put the result into `shift`. */
  method ReceiveBit(line: seq<Symbol>, i: nat, shift0: Reg, x3_0: Reg, prev0: bool, t0: nat,
                    ghost s: Rx, ghost bits: seq<bool>)
    returns (shift: Reg, x3: Reg, prev: bool, t: nat)
    requires i < 8 && s.t == t0 && s.level == prev0 && Window(shift0, i, s.run) && Partial(shift0, x3_0, i, bits)
    ensures var s' := DropStuffed(line, TakeBit(line, s));
            s'.t == t && s'.level == prev && Window(shift, i + 1, s'.run)
    ensures Partial(shift, x3, i + 1, bits + [NextBit(line, s)])
  {
    var level := Minus(Sample(line, t0));
    shift := shift0[i := level != prev0];
    shift, x3, prev, t := Unstuff(line, i, shift, x3_0, level, t0 + 1, shift0, s, bits);
  }

  lemma ListenByteUnfold(line: seq<Symbol>, s: Rx, got: seq<byte>, partial: seq<bool>)
    requires |got| < BUFSIZE && |partial| < 8
    ensures ListenByte(line, s, got, partial)
         == ListenByte(line, DropStuffed(line, TakeBit(line, s)), got, partial + [NextBit(line, s)])
  {
  }

  lemma ByteComplete(line: seq<Symbol>, s: Rx, got: seq<byte>, shift: Reg, x3: Reg, bits: seq<bool>)
    requires |got| < BUFSIZE && Partial(shift, x3, 8, bits)
    ensures ListenByte(line, s, got, bits) == Listen(line, s, got + [ByteOf(Xor(x3, shift))])
  {
    assert Xor(x3, shift) == bits;
    hide ByteOf;
  }

  /** Bits 2 to 7 of a byte. */
  method ReceiveBits(line: seq<Symbol>, shift0: Reg, x3_0: Reg, prev0: bool, t0: nat,
                     ghost s0: Rx, ghost got: seq<byte>, ghost bits0: seq<bool>)
    returns (shift: Reg, x3: Reg, prev: bool, t: nat, ghost s: Rx, ghost bits: seq<bool>)
    requires |got| < BUFSIZE && s0.t == t0 && s0.level == prev0
    requires Window(shift0, 2, s0.run) && Partial(shift0, x3_0, 2, bits0)
    ensures s.t == t && s.level == prev && Window(shift, 8, s.run) && Partial(shift, x3, 8, bits)
    ensures ListenByte(line, s0, got, bits0) == ListenByte(line, s, got, bits)
  {
    hide ListenByte, Window, Partial, TakeBit, DropStuffed;
    shift, x3, prev, t, s, bits := shift0, x3_0, prev0, t0, s0, bits0;
    assert |bits| == 2 by { PartialLength(shift, x3, 2, bits); }
    for i := 2 to 8
      invariant s.t == t && s.level == prev && |bits| == i
      invariant Window(shift, i, s.run) && Partial(shift, x3, i, bits)
      invariant ListenByte(line, s0, got, bits0) == ListenByte(line, s, got, bits)
    {
      ListenByteUnfold(line, s, got, bits);
      shift, x3, prev, t := ReceiveBit(line, i, shift, x3, prev, t, s, bits);
      bits := bits + [NextBit(line, s)];
      s := DropStuffed(line, TakeBit(line, s));
    }
  }

  lemma PartialLength(shift: Reg, x3: Reg, i: nat, bits: seq<bool>)
    requires i <= 8 && Partial(shift, x3, i, bits)
    ensures |bits| == i
  {
  }

  /** The state in which the receiver finds the line: the sync pattern has ended with two K. */
  const AFTER_SYNC := Rx(0, false, 0)

  /** What remains to be received once bit 0 of a byte is in and its successor was no SE0. */
  function AfterBit0(line: seq<Symbol>, s: Rx, got: seq<byte>, bit0: bool): Outcome
    requires |got| <= BUFSIZE
  {
    if |got| == BUFSIZE then Overflow(got) else ListenByte(line, s, got, [bit0])
  }

  lemma FirstBit(line: seq<Symbol>, shift: Reg, level: bool)
    requires level == Minus(Sample(line, 0)) && shift == Not(Zeros(8))[0 := level]
    ensures var s, b := DropStuffed(line, TakeBit(line, AFTER_SYNC)), NextBit(line, AFTER_SYNC);
            && Listen(line, AFTER_SYNC, []) == AfterBit0(line, s, [], b)
            && s.t == 1 && s.level == level
            && Window(shift, 1, s.run) && Partial(shift, Not(Zeros(8)), 1, [b])
  {
    hide ListenByte, Sample, Minus;
  }

  lemma LoopTop(line: seq<Symbol>, s: Rx, got: seq<byte>)
    requires 0 < |got| <= BUFSIZE
    ensures var s0 := TakeBit(line, s);
            Listen(line, s, got) == if Sample(line, s0.t) == SE0 then Packet(got)
                                    else AfterBit0(line, DropStuffed(line, s0), got, NextBit(line, s))
  {
    hide ListenByte, TakeBit, DropStuffed, NextBit;
  }

  lemma FreshByte(shift: Reg, run: nat)
    requires Window(shift, 8, run)
    ensures Window(shift, 0, run) && Partial(shift, Not(Zeros(8)), 0, [])
  {
  }

  /** The bytes stored so far, and nothing else changed. */
  predicate Stored(before: seq<byte>, now: seq<byte>, y0: nat, got: seq<byte>) {
    y0 + |got| <= |before| && now == before[..y0] + got + before[y0 + |got|..]
  }

  lemma StoreNext(before: seq<byte>, now: seq<byte>, y0: nat, got: seq<byte>, b: byte)
    requires Stored(before, now, y0, got) && y0 + |got| < |before|
    ensures Stored(before, now[y0 + |got| := b], y0, got + [b])
  {
  }

  /** The receiver loop and the start of `se0`: stores the bytes at `y0`, and on an SE0 recovers their
      number from the count-down register and takes the pointer back to the first one. */
  method UsbReceive12(line: seq<Symbol>, buf: array<byte>, y0: nat) returns (accepted: bool, cnt: byte, y: nat)
    requires y0 + BUFSIZE <= buf.Length
    modifies buf
    ensures var o := Listen(line, AFTER_SYNC, []);
            && accepted == o.Packet?
            && |o.bytes| <= BUFSIZE && Stored(old(buf[..]), buf[..], y0, o.bytes)
            && (accepted ==> cnt == |o.bytes| && y == y0)
  {
    hide Listen, ListenByte, AfterBit0, Window, Partial, TakeBit, DropStuffed, ByteOf, Sample, Minus, Xor, Stored;
    y, cnt := y0, BUFSIZE;
    var shift: Reg, x3: Reg := Not(Zeros(8)), Not(Zeros(8));
    var prev := Minus(Sample(line, 0));
    shift := shift[0 := prev];
    var t := 1;
    FirstBit(line, shift, prev);
    ghost var s, b0 := DropStuffed(line, TakeBit(line, AFTER_SYNC)), NextBit(line, AFTER_SYNC);
    ghost var goal, got: seq<byte> := Listen(line, AFTER_SYNC, []), [];
    assert Stored(buf[..], buf[..], y0, []) by { StoredNothing(buf[..], y0); }
    accepted := false;
    while true
      invariant y == y0 + |got| && |got| <= BUFSIZE && cnt == BUFSIZE - |got|
      invariant goal == AfterBit0(line, s, got, b0)
      invariant s.t == t && s.level == prev && Window(shift, 1, s.run) && Partial(shift, x3, 1, [b0])
      invariant Stored(old(buf[..]), buf[..], y0, got)
      decreases BUFSIZE - |got|
    {
      ghost var s1, b1 := DropStuffed(line, TakeBit(line, s)), NextBit(line, s);
      shift, x3, prev, t := ReceiveBit(line, 1, shift, x3, prev, t, s, [b0]);
      var borrow;
      cnt, borrow := Subi(cnt, 1);
      AfterBit0Is(line, s, got, b0);
      if borrow {
        break;
      }
      ghost var bits;
      shift, x3, prev, t, s, bits := ReceiveBits(line, shift, x3, prev, t, s1, got, [b0] + [b1]);
      ByteComplete(line, s, got, shift, x3, bits);
      // rxLoop
      x3 := Xor(x3, shift);
      var level := Minus(Sample(line, t));
      StoreNext(old(buf[..]), buf[..], y0, got, ByteOf(x3));
      buf[y] := ByteOf(x3);
      y := y + 1;
      got := got + [ByteOf(x3)];
      x3 := Not(Zeros(8));
      FreshByte(shift, s.run);
      LoopTop(line, s, got);
      ghost var before := shift;
      shift := shift[0 := level != prev];
      Taken(line, s, t, prev, level);
      prev := level;
      t := t + 1;
      if Sample(line, t) == SE0 {
        accepted := true;
        break;
      }
      b0 := NextBit(line, s);
      shift, x3, prev, t := Unstuff(line, 0, shift, x3, prev, t, before, s, []);
      s := DropStuffed(line, TakeBit(line, s));
      assert [] + [b0] == [b0];
    }
    if accepted {
      // subi cnt, USB_BUFSIZE; neg cnt; sub YL, cnt
      var borrow;
      cnt, borrow := Subi(cnt, BUFSIZE);
      cnt, borrow := Subi(0, cnt);
      y := y - cnt;
    }
  }

  lemma StoredNothing(b: seq<byte>, y0: nat)
    requires y0 <= |b|
    ensures Stored(b, b, y0, [])
  {
  }

  lemma AfterBit0Is(line: seq<Symbol>, s: Rx, got: seq<byte>, b0: bool)
    requires |got| <= BUFSIZE
    ensures |got| == BUFSIZE ==> AfterBit0(line, s, got, b0) == Overflow(got)
    ensures |got| < BUFSIZE ==> (var s' := DropStuffed(line, TakeBit(line, s));
                                 AfterBit0(line, s, got, b0) == ListenByte(line, s', got, [b0] + [NextBit(line, s)]))
  {
    if |got| < BUFSIZE {
      ListenByteUnfold(line, s, got, [b0]);
    }
  }

  lemma Taken(line: seq<Symbol>, s: Rx, t: nat, prev: bool, level: bool)
    requires s.t == t && s.level == prev && level == Minus(Sample(line, t))
    ensures TakeBit(line, s) == Rx(t + 1, level, if NextBit(line, s) then s.run + 1 else 0)
    ensures (level != prev) == !NextBit(line, s)
  {
  }
}
