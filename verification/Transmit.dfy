/** The two bit-stuffing transmitters. Both emit one level per bit time. */
module Transmit {
  import opened Bits
  import opened Avr
  import opened LineCode

  /** The message a transmitter sends: the sync byte and `cnt - 1` bytes at `y`. */
  function Message(mem: seq<byte>, y: nat, cnt: nat): seq<bool>
    requires cnt > 0 && y + cnt - 1 <= |mem|
  {
    SYNC + BitStream(mem[y..y + cnt - 1])
  }

  // ---- 12 MHz: a counter of the ones that may still follow ----

  /** One bit of usbSendAndReti: rotate the bit out, toggle for a zero, count down for a one. On the
      sixth one the rotation is undone, the line is left alone for one bit time (that is the one), and
      the second rotation yields a clear carry flag, so that the stuffed zero is sent as any other zero. */
  method SendBit12(shift0: Reg, carry0: bool, x4_0: byte, x1_0: bool, ghost rest: seq<bool>)
    returns (shift: Reg, carry: bool, x4: byte, x1: bool, out: seq<bool>)
    requires 1 <= x4_0 <= 6
    ensures 1 <= x4 <= 6 && shift[..7] == shift0[1..]
    ensures Encode([shift0[0]] + rest, 6 - x4_0, x1_0) == out + Encode(rest, 6 - x4, x1)
  {
    hide Encode;
    x4, x1, out := x4_0, x1_0, [];
    shift, carry := Ror(shift0, carry0);
    if carry {
      x4, carry := Subi(x4, 1);
      if x4 == 0 {
        EncodeSixthOne(rest, x1);
        shift, carry := Lsl(shift);
        out := out + [x1];
        shift, carry := Ror(shift, carry);
        assert !carry;
      } else {
        EncodeOne(rest, 6 - x4_0, x1);
        out := out + [x1];
        return;
      }
    } else {
      EncodeZero(rest, 6 - x4_0, x1);
    }
    x1 := !x1;
    x4 := 6;
    out := out + [x1];
  }

  /** The bits still to be sent: the rest of the current byte and `n` more bytes at `y`. */
  function Rest(shift: Reg, k: nat, mem: seq<byte>, y: nat, n: nat): seq<bool>
    requires k <= 8 && y + n <= |mem|
  {
    shift[..k] + BitStream(mem[y..y + n])
  }

  lemma NextBit(shift: Reg, k: nat, mem: seq<byte>, y: nat, n: nat, shift': Reg)
    requires 0 < k <= 8 && y + n <= |mem| && shift'[..7] == shift[1..]
    ensures Rest(shift, k, mem, y, n) == [shift[0]] + Rest(shift', k - 1, mem, y, n)
  {
    Shifted(shift, k, shift');
    ConsAppend(shift[0], shift'[..k - 1], BitStream(mem[y..y + n]));
  }

  lemma Shifted(shift: Reg, k: nat, shift': Reg)
    requires 0 < k <= 8 && shift'[..7] == shift[1..]
    ensures shift[..k] == [shift[0]] + shift'[..k - 1]
  {
    assert forall i :: 0 <= i < 7 ==> shift'[i] == shift'[..7][i] == shift[i + 1];
  }

  lemma ConsAppend(b: bool, p: seq<bool>, q: seq<bool>)
    ensures ([b] + p) + q == [b] + (p + q)
  {
  }

  lemma NextByte(shift: Reg, mem: seq<byte>, y: nat, n: nat)
    requires 0 < n && y + n <= |mem|
    ensures Rest(shift, 0, mem, y, n) == Rest(BitsOf(mem[y]), 8, mem, y + 1, n - 1)
  {
    hide BitsOf;
    var m := mem[y..y + n];
    assert m[0] == mem[y] && m[1..] == mem[y + 1..y + n];
    assert BitsOf(mem[y])[..8] == BitsOf(mem[y]);
  }

  /** What is already out together with what is still to come is the whole message. */
  ghost predicate Sending(goal: seq<bool>, out: seq<bool>, rest: seq<bool>, run: nat, level: bool)
    requires run < 6
  {
    goal == out + Encode(rest, run, level)
  }

  lemma Sent(goal: seq<bool>, out: seq<bool>, bit: seq<bool>, rest: seq<bool>, rest': seq<bool>,
             run: nat, run': nat, level: bool, level': bool)
    requires run < 6 && run' < 6 && Sending(goal, out, rest, run, level)
    requires Encode(rest, run, level) == bit + Encode(rest', run', level')
    ensures Sending(goal, out + bit, rest', run', level')
  {
    hide Encode;
    assert out + (bit + Encode(rest', run', level')) == (out + bit) + Encode(rest', run', level');
  }

  /** usbSendAndReti of the 12 MHz module for `cnt` bytes including the sync byte. The loop over bits 0
      to 5 is closed by `subi cnt, 171`, whose borrow is set twice and clear the third time. */
  method UsbSend12(mem: seq<byte>, y0: nat, cnt0: byte, carry0: bool) returns (out: seq<bool>, y: nat)
    requires 0 < cnt0 <= 85 && y0 + cnt0 <= |mem|
    ensures out == Encode(Message(mem, y0, cnt0), 0, IDLE)
    ensures y == y0 + cnt0
  {
    hide Encode, BitsOf;
    ghost var goal := Encode(Message(mem, y0, cnt0), 0, IDLE);
    var x1, x4: byte, carry := IDLE, 6, carry0;
    var cnt := cnt0;
    y := y0;
    // ldi shift, 0x40: the sync byte after its first rotation; its first bit is sent by hand
    var shift: Reg := [false, false, false, false, false, false, true, false];
    ghost var k := 7;
    SyncStart(mem, y0, cnt0, shift);
    x1 := !x1;
    out := [x1];
    var entry, bytes := true, true;
    while bytes
      invariant bytes ==> 0 < cnt <= 85 && y + cnt == y0 + cnt0 && k == (if entry then 7 else 8)
      invariant !bytes ==> cnt == 0 && y == y0 + cnt0
      invariant 1 <= x4 <= 6
      invariant bytes ==> Sending(goal, out, Rest(shift, k, mem, y, cnt - 1), 6 - x4, x1)
      invariant !bytes ==> Sending(goal, out, [], 6 - x4, x1)
      decreases bytes, cnt
    {
      var again := true;
      ghost var n, pass := cnt - 1, 0;
      while again
        invariant 0 <= pass <= 3 && again == (pass < 3)
        invariant cnt == (if pass < 3 then n + 1 + 85 * pass else n)
        invariant 1 <= x4 <= 6 && k == (if pass == 0 && entry then 7 else 8 - 2 * pass) && (pass > 0 ==> !entry)
        invariant Sending(goal, out, Rest(shift, k, mem, y, n), 6 - x4, x1)
        decreases 3 - pass
      {
        if entry {
          entry := false;
        } else {
          shift, carry, x4, x1, out, k := Step12(goal, out, shift, carry, x4, x1, k, mem, y, n);
        }
        shift, carry, x4, x1, out, k := Step12(goal, out, shift, carry, x4, x1, k, mem, y, n);
        cnt, again := Subi(cnt, 171);
        pass := pass + 1;
      }
      shift, carry, x4, x1, out, k := Step12(goal, out, shift, carry, x4, x1, k, mem, y, n);
      shift, carry, x4, x1, out, k := Step12(goal, out, shift, carry, x4, x1, k, mem, y, n);
      if cnt > 0 { NextByte(shift, mem, y, n); } else { assert Rest(shift, 0, mem, y, 0) == []; }
      shift := BitsOf(mem[y]);
      y := y + 1;
      k := 8;
      bytes := cnt != 0;
    }
    EncodeNothing(6 - x4, x1);
  }

  lemma EncodeNothing(run: nat, level: bool)
    requires run < 6
    ensures Encode([], run, level) == []
  {
  }

  lemma SyncStart(mem: seq<byte>, y: nat, cnt: nat, shift: Reg)
    requires 0 < cnt && y + cnt <= |mem| && shift[..7] == SYNC[1..]
    ensures Sending(Encode(Message(mem, y, cnt), 0, IDLE), [!IDLE], Rest(shift, 7, mem, y, cnt - 1), 0, !IDLE)
  {
    hide Encode, BitStream;
    var rest := Rest(shift, 7, mem, y, cnt - 1);
    assert SYNC == [SYNC[0]] + shift[..7];
    ConsAppend(false, shift[..7], BitStream(mem[y..y + cnt - 1]));
    EncodeZero(rest, 0, IDLE);
  }

  /** One turn through a bit stanza, with the bookkeeping of what is left to send. */
  method Step12(ghost goal: seq<bool>, out0: seq<bool>, shift0: Reg, carry0: bool, x4_0: byte, x1_0: bool,
                ghost k0: nat, ghost mem: seq<byte>, ghost y: nat, ghost n: nat)
    returns (shift: Reg, carry: bool, x4: byte, x1: bool, out: seq<bool>, ghost k: nat)
    requires 1 <= x4_0 <= 6 && 0 < k0 <= 8 && y + n <= |mem|
    requires Sending(goal, out0, Rest(shift0, k0, mem, y, n), 6 - x4_0, x1_0)
    ensures 1 <= x4 <= 6 && k == k0 - 1
    ensures Sending(goal, out, Rest(shift, k, mem, y, n), 6 - x4, x1)
  {
    hide Encode, Sending;
    k := k0 - 1;
    ghost var rest := shift0[1..][..k] + BitStream(mem[y..y + n]);
    var bit;
    shift, carry, x4, x1, bit := SendBit12(shift0, carry0, x4_0, x1_0, rest);
    assert shift[..k] == shift[..7][..k];
    NextBit(shift0, k0, mem, y, n, shift);
    Sent(goal, out0, bit, Rest(shift0, k0, mem, y, n), rest, 6 - x4_0, 6 - x4, x1_0, x1);
    out := out0 + bit;
  }

  // ---- 15 MHz: a history of the last eight bits sent ----

  /** The history register, newest bit in bit 7: exactly `run` ones since the last zero. */
  predicate History(x2: Reg, run: nat)
    requires run < 6
  {
    (forall i :: 8 - run <= i < 8 ==> x2[i]) && !x2[7 - run]
  }

  /** `cpi x2, 0xfc` leaves the carry flag clear exactly when the last six bits sent were ones. */
  lemma SixOnes(x2: Reg)
    ensures ByteOf(x2) >= 0xfc <==> forall i :: 2 <= i < 8 ==> x2[i]
  {
    var top := x2[1..][1..];
    assert forall i :: 0 <= i < 6 ==> top[i] == x2[i + 2];
    AllOnesValue(top);
    assert Value(x2[1..]) == (if x2[1] then 1 else 0) + 2 * Value(top);
    assert Pow2(6) == 64;
  }

  lemma {:induction false} AllOnesValue(s: seq<bool>)
    ensures Value(s) < Pow2(|s|)
    ensures Value(s) == Pow2(|s|) - 1 <==> forall i :: 0 <= i < |s| ==> s[i]
  {
    if s != [] {
      AllOnesValue(s[1..]);
      assert (forall i :: 0 <= i < |s| ==> s[i]) <==> s[0] && forall i :: 0 <= i < |s[1..]| ==> s[1..][i];
    }
  }

  /** One bit of usbSendAndReti: toggle for a zero, shift the bit into the history, and when the last six
      bits were ones toggle once more with an empty history. For bit 7 (`last`) the stuffed zero is not
      shifted into the history, which is empty anyway. */
  method SendBit15(shift0: Reg, carry0: bool, x2_0: Reg, x1_0: bool, last: bool, ghost run0: nat, ghost rest: seq<bool>)
    returns (shift: Reg, x2: Reg, x1: bool, out: seq<bool>, ghost run: nat)
    requires run0 < 6 && (History(x2_0, run0) || !shift0[0])
    ensures run < 6 && History(x2, run) && shift[..7] == shift0[1..]
    ensures Encode([shift0[0]] + rest, run0, x1_0) == out + Encode(rest, run, x1)
  {
    hide Encode, ByteOf;
    var carry;
    x1 := x1_0;
    if !shift0[0] {
      EncodeZero(rest, run0, x1);
      x1 := !x1;
    }
    shift, carry := Ror(shift0, carry0);
    out := [x1];
    x2, carry := Ror(x2_0, carry);
    run := if shift0[0] then run0 + 1 else 0;
    assert forall i :: 0 <= i < 7 ==> x2[i] == x2_0[i + 1];
    assert x2[7] == shift0[0];
    assert shift0[0] ==> x2[7 - run0 - 1] == x2_0[7 - run0];
    SixOnes(x2);
    if ByteOf(x2) >= 0xfc {
      assert x2[7];
      assert run == 6;
      EncodeSixthOne(rest, x1);
      x1 := !x1;
      x2 := Zeros(8);
      run := 0;
      out := out + [x1];
      if !last {
        x2, carry := Ror(x2, false);
      }
    } else if shift0[0] {
      EncodeOne(rest, run0, x1);
    }
  }

  method Step15(ghost goal: seq<bool>, out0: seq<bool>, shift0: Reg, carry0: bool, x2_0: Reg, x1_0: bool, last: bool,
                ghost run0: nat, ghost k0: nat, ghost mem: seq<byte>, ghost y: nat, ghost n: nat)
    returns (shift: Reg, x2: Reg, x1: bool, out: seq<bool>, ghost run: nat, ghost k: nat)
    requires run0 < 6 && (History(x2_0, run0) || !shift0[0]) && 0 < k0 <= 8 && y + n <= |mem|
    requires Sending(goal, out0, Rest(shift0, k0, mem, y, n), run0, x1_0)
    ensures run < 6 && History(x2, run) && k == k0 - 1
    ensures Sending(goal, out, Rest(shift, k, mem, y, n), run, x1)
  {
    hide Encode, Sending, History;
    k := k0 - 1;
    ghost var rest := shift0[1..][..k] + BitStream(mem[y..y + n]);
    var bit;
    shift, x2, x1, bit, run := SendBit15(shift0, carry0, x2_0, x1_0, last, run0, rest);
    assert shift[..k] == shift[..7][..k];
    NextBit(shift0, k0, mem, y, n, shift);
    Sent(goal, out0, bit, Rest(shift0, k0, mem, y, n), rest, run0, run, x1_0, x1);
    out := out0 + bit;
  }

  /** usbSendAndReti of the 15 MHz module. The history register is not initialised: whatever it holds,
      the zero with which the sync byte starts makes it exact. */
  method UsbSend15(mem: seq<byte>, y0: nat, cnt0: byte, carry: bool, x2_0: Reg) returns (out: seq<bool>, y: nat)
    requires 0 < cnt0 && y0 + cnt0 <= |mem|
    ensures out == Encode(Message(mem, y0, cnt0), 0, IDLE)
    ensures y == y0 + cnt0
  {
    hide Encode, BitsOf, History;
    ghost var goal := Encode(Message(mem, y0, cnt0), 0, IDLE);
    var x1, x2, cnt := IDLE, x2_0, cnt0;
    y := y0;
    out := [];
    var shift: Reg := SYNC;  // ldi shift, 0x80
    ghost var k, run := 8, 0;
    assert SYNC[..8] == SYNC;
    var bytes := true;
    while bytes
      invariant bytes ==> cnt > 0 && y + cnt == y0 + cnt0 && k == 8
      invariant !bytes ==> cnt == 0 && y == y0 + cnt0
      invariant run < 6 && (History(x2, run) || !shift[0])
      invariant bytes ==> Sending(goal, out, Rest(shift, 8, mem, y, cnt - 1), run, x1)
      invariant !bytes ==> Sending(goal, out, [], run, x1)
      decreases bytes, cnt
    {
      ghost var n := cnt - 1;
      var bitcnt := 6;
      while bitcnt != 0
        invariant 0 <= bitcnt <= 6 && k == bitcnt + 2
        invariant run < 6 && (History(x2, run) || (!shift[0] && bitcnt == 6))
        invariant Sending(goal, out, Rest(shift, k, mem, y, n), run, x1)
      {
        shift, x2, x1, out, run, k := Step15(goal, out, shift, carry, x2, x1, false, run, k, mem, y, n);
        bitcnt := bitcnt - 1;
      }
      shift, x2, x1, out, run, k := Step15(goal, out, shift, carry, x2, x1, false, run, k, mem, y, n);
      shift, x2, x1, out, run, k := Step15(goal, out, shift, carry, x2, x1, true, run, k, mem, y, n);
      if n > 0 { NextByte(shift, mem, y, n); } else { assert Rest(shift, 0, mem, y, 0) == []; }
      shift := BitsOf(mem[y]);
      y := y + 1;
      k := 8;
      cnt := cnt - 1;
      bytes := cnt != 0;
    }
    EncodeNothing(run, x1);
  }
}
