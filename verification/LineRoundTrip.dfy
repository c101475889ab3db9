/** What one end of the line sends, the other end receives. */
module LineRoundTrip {
  import opened Bits
  import opened LineCode
  import opened Receive

  function SymbolOf(level: bool): Symbol { if level then J else K }

  function Symbols(levels: seq<bool>): (r: seq<Symbol>)
    ensures |r| == |levels|
  {
    seq(|levels|, i requires 0 <= i < |levels| => SymbolOf(levels[i]))
  }

  /** End of packet, then idle. */
  const EOP := [SE0, SE0, J]

  /** From bit time `t` on, the line shows these levels and then the end of the packet. */
  predicate Carries(line: seq<Symbol>, t: nat, levels: seq<bool>) {
    && t + |levels| + 2 <= |line|
    && (forall i :: 0 <= i < |levels| ==> line[t + i] == SymbolOf(levels[i]))
    && line[t + |levels|] == SE0 && line[t + |levels| + 1] == SE0
  }

  /** The whole bytes in a bit stream. */
  function BytesOf(bits: seq<bool>): (bytes: seq<byte>)
    ensures |bytes| == |bits| / 8
  {
    if |bits| < 8 then [] else [ByteOf(bits[..8])] + BytesOf(bits[8..])
  }

  lemma CarriesNext(line: seq<Symbol>, t: nat, a: bool, rest: seq<bool>)
    requires Carries(line, t, [a] + rest)
    ensures t < |line| && line[t] == SymbolOf(a)
    ensures Carries(line, t + 1, rest)
  {
    var l := [a] + rest;
    assert l[0] == a;
    forall i | 0 <= i < |rest|
      ensures line[t + 1 + i] == SymbolOf(rest[i])
    {
      assert l[i + 1] == rest[i];
      assert line[t + (i + 1)] == SymbolOf(l[i + 1]);
    }
  }

  /** In step with the sender, one bit comes back and the receiver stays in step. */
  lemma InStep(line: seq<Symbol>, s: Rx, bit: bool, rest: seq<bool>)
    requires s.run < 6 && Carries(line, s.t, Encode([bit] + rest, s.run, s.level))
    ensures NextBit(line, s) == bit
    ensures var s' := DropStuffed(line, TakeBit(line, s));
            s'.run < 6 && Carries(line, s'.t, Encode(rest, s'.run, s'.level))
    ensures rest != [] ==> Sample(line, s.t + 1) != SE0
    ensures rest == [] && !bit ==> Sample(line, s.t + 1) == SE0
  {
    hide Encode, Carries;
    var l := s.level;
    if !bit {
      EncodeZero(rest, s.run, l);
      CarriesNext(line, s.t, !l, Encode(rest, 0, !l));
      LooksAhead(line, s.t + 1, rest, 0, !l);
    } else if s.run < 5 {
      EncodeOne(rest, s.run, l);
      CarriesNext(line, s.t, l, Encode(rest, s.run + 1, l));
      LooksAhead(line, s.t + 1, rest, s.run + 1, l);
    } else {
      EncodeSixthOne(rest, l);
      assert [l, !l] + Encode(rest, 0, !l) == [l] + ([!l] + Encode(rest, 0, !l));
      CarriesNext(line, s.t, l, [!l] + Encode(rest, 0, !l));
      CarriesNext(line, s.t + 1, !l, Encode(rest, 0, !l));
    }
  }

  lemma LooksAhead(line: seq<Symbol>, t: nat, rest: seq<bool>, run: nat, level: bool)
    requires run < 6 && Carries(line, t, Encode(rest, run, level))
    ensures rest != [] ==> Sample(line, t) != SE0
    ensures rest == [] ==> Sample(line, t) == SE0
  {
    if rest != [] {
      assert Stuff(rest, run) != [];
      assert line[t + 0] == SymbolOf(Encode(rest, run, level)[0]);
    }
  }

  /** One bit less of a byte is to come. */
  lemma Regroup(partial: seq<bool>, bits: seq<bool>, n: nat)
    requires 0 < n <= |bits|
    ensures bits == [bits[0]] + bits[1..] && bits[1..][n - 1..] == bits[n..]
    ensures partial + [bits[0]] + bits[1..][..n - 1] == partial + bits[..n]
  {
  }

  /** The rest of a byte: the receiver takes it in and starts the next one in step with the sender. */
  lemma {:induction false} FinishByte(line: seq<Symbol>, s: Rx, got: seq<byte>, partial: seq<bool>, bits: seq<bool>)
    returns (s': Rx)
    requires s.run < 6 && |got| < BUFSIZE && |partial| <= 8 <= |partial| + |bits|
    requires Carries(line, s.t, Encode(bits, s.run, s.level))
    ensures var n := 8 - |partial|;
            && s'.run < 6 && Carries(line, s'.t, Encode(bits[n..], s'.run, s'.level))
            && ListenByte(line, s, got, partial) == Listen(line, s', got + [ByteOf(partial + bits[..n])])
    decreases 8 - |partial|
  {
    hide Listen, Encode, Carries, TakeBit, DropStuffed, NextBit, ByteOf;
    var n := 8 - |partial|;
    if n == 0 {
      assert partial + bits[..0] == partial && bits[0..] == bits;
      s' := s;
    } else {
      Regroup(partial, bits, n);
      InStep(line, s, bits[0], bits[1..]);
      ListenByteUnfold(line, s, got, partial);
      s' := FinishByte(line, DropStuffed(line, TakeBit(line, s)), got, partial + [bits[0]], bits[1..]);
    }
  }

  /** Bytes come back one after the other. */
  lemma {:induction false} TakeBytes(line: seq<Symbol>, s: Rx, got: seq<byte>, bits: seq<bool>, k: nat)
    returns (s': Rx)
    requires s.run < 6 && |got| + k <= BUFSIZE && 8 * k <= |bits|
    requires Carries(line, s.t, Encode(bits, s.run, s.level))
    ensures s'.run < 6 && Carries(line, s'.t, Encode(bits[8 * k..], s'.run, s'.level))
    ensures Listen(line, s, got) == Listen(line, s', got + BytesOf(bits[..8 * k]))
    decreases k
  {
    hide Encode, Carries, TakeBit, DropStuffed, NextBit, ByteOf, ListenByte;
    if k == 0 {
      assert bits[0..] == bits;
      assert got + BytesOf(bits[..0]) == got;
      s' := s;
    } else {
      assert bits == [bits[0]] + bits[1..];
      InStep(line, s, bits[0], bits[1..]);
      var s1 := FinishByte(line, DropStuffed(line, TakeBit(line, s)), got, [bits[0]], bits[1..]);
      assert bits[1..][7..] == bits[8..] && [bits[0]] + bits[1..][..7] == bits[..8];
      TakenAhead(line, s);
      assert Listen(line, s, got) == Listen(line, s1, got + [ByteOf(bits[..8])]);
      s' := TakeBytes(line, s1, got + [ByteOf(bits[..8])], bits[8..], k - 1);
      assert bits[8..][8 * (k - 1)..] == bits[8 * k..];
      BytesStep(got, bits, k);
    }
  }

  lemma BytesStep(got: seq<byte>, bits: seq<bool>, k: nat)
    requires 0 < k && 8 * k <= |bits|
    ensures got + [ByteOf(bits[..8])] + BytesOf(bits[8..][..8 * (k - 1)]) == got + BytesOf(bits[..8 * k])
  {
    hide ByteOf;
    var b := bits[..8 * k];
    assert b[..8] == bits[..8] && b[8..] == bits[8..][..8 * (k - 1)];
  }

  lemma TakenAhead(line: seq<Symbol>, s: Rx)
    ensures TakeBit(line, s).t == s.t + 1
  {
  }

  /** After the last whole byte nothing, or a single zero, is left: the packet ends there. */
  lemma PacketEnds(line: seq<Symbol>, s: Rx, got: seq<byte>, left: seq<bool>)
    requires s.run < 6 && 0 < |got| <= BUFSIZE && (left == [] || left == [false])
    requires Carries(line, s.t, Encode(left, s.run, s.level))
    ensures Listen(line, s, got) == Packet(got)
  {
    hide ListenByte;
    if left == [false] {
      assert left == [false] + [];
      InStep(line, s, false, []);
    } else {
      assert Encode(left, s.run, s.level) == [];
    }
  }

  lemma {:induction false} BytesOfBitStream(data: seq<byte>)
    ensures BytesOf(BitStream(data)) == data
  {
    if data != [] {
      ByteOfBitsOf(data[0]);
      BytesOfBitStream(data[1..]);
      hide BitsOf, ByteOf;
      var s := BitStream(data);
      assert s[..8] == BitsOf(data[0]) && s[8..] == BitStream(data[1..]);
    }
  }

  // ---- The sync pattern ----

  /** The symbols on the line for a message: sync byte, bytes, end of packet. */
  function Wire(data: seq<byte>): seq<Symbol> {
    Symbols(Encode(SYNC + BitStream(data), 0, IDLE)) + EOP
  }

  /** The sync byte as the receiver's edge search sees it: K J K J K J, then two K. */
  const SYNC_LEVELS := [K, J, K, J, K, J, K, K]

  /** The sender counts the last bit of the sync byte as the first one of a run. */
  lemma SyncFirst(bits: seq<bool>)
    ensures Encode(SYNC + bits, 0, IDLE)
         == [false, true, false, true, false, true, false, false] + Encode(bits, 1, false)
  {
    hide Encode;
    var b7 := [true] + bits;
    var b6, b5, b4 := [false] + b7, [false] + ([false] + b7), [false] + ([false] + ([false] + b7));
    var b3 := [false] + b4;
    var b2 := [false] + b3;
    var b1 := [false] + b2;
    assert SYNC + bits == [false] + b1;
    EncodeZero(b1, 0, true);
    EncodeZero(b2, 0, false);
    EncodeZero(b3, 0, true);
    EncodeZero(b4, 0, false);
    EncodeZero(b5, 0, true);
    EncodeZero(b6, 0, false);
    EncodeZero(b7, 0, true);
    EncodeOne(bits, 0, false);
  }

  /** Where a zero comes in time, it does not matter how many ones of the sync byte were counted. */
  lemma {:induction false} SameStuff(bits: seq<bool>, a: nat, b: nat, p: nat)
    requires p < |bits| && !bits[p] && a + p < 6 && b + p < 6
    requires forall i :: 0 <= i < p ==> bits[i]
    ensures Stuff(bits, a) == Stuff(bits, b)
    decreases p
  {
    if p > 0 {
      SameStuff(bits[1..], a + 1, b + 1, p - 1);
    }
  }

  /** Five ones at the start are six for the sender, and the zero it inserts is data for the receiver. */
  lemma FiveOnes(bits: seq<bool>)
    requires |bits| >= 5 && forall i :: 0 <= i < 5 ==> bits[i]
    ensures Stuff(bits, 1) == Stuff(bits[..5] + [false] + bits[5..], 0)
  {
    hide Stuff;
    var b, rest := bits[..5] + [false] + bits[5..], bits[5..];
    OnesAhead(bits, 1, 4);
    OnesAhead(b, 0, 5);
    SixthOne(bits[4..], rest);
    InsertedZero(b[5..], rest);
    OneMore(Stuff(rest, 0));
  }

  lemma OneMore(s: seq<bool>)
    ensures Not(Zeros(4)) + ([true, false] + s) == Not(Zeros(5)) + ([false] + s)
  {
    assert Not(Zeros(5)) == Not(Zeros(4)) + [true];
  }

  lemma SixthOne(t: seq<bool>, rest: seq<bool>)
    requires t == [true] + rest
    ensures Stuff(t, 5) == [true, false] + Stuff(rest, 0)
  {
    assert t[1..] == rest;
  }

  lemma InsertedZero(t: seq<bool>, rest: seq<bool>)
    requires t == [false] + rest
    ensures Stuff(t, 5) == [false] + Stuff(rest, 0)
  {
    assert t[1..] == rest;
  }

  lemma {:induction false} OnesAhead(bits: seq<bool>, run: nat, n: nat)
    requires n <= |bits| && run + n <= 5 && forall i :: 0 <= i < n ==> bits[i]
    ensures Stuff(bits, run) == Not(Zeros(n)) + Stuff(bits[n..], run + n)
    decreases n
  {
    if n == 0 {
      assert bits[0..] == bits;
    } else {
      OnesAhead(bits[1..], run + 1, n - 1);
      assert bits[1..][n - 1..] == bits[n..];
      assert Not(Zeros(n)) == [true] + Not(Zeros(n - 1));
    }
  }

  /** What is on the wire after the sync pattern: the message with one counted one. */
  function Heard(data: seq<byte>): seq<Symbol> {
    Symbols(Encode(BitStream(data), 1, false)) + EOP
  }

  /** The wire starts with the sync pattern, with which the receiver finds its place. */
  lemma AfterSync(data: seq<byte>)
    ensures Wire(data) == SYNC_LEVELS + Heard(data)
    ensures Carries(Heard(data), 0, Encode(BitStream(data), 1, false))
  {
    var bits := BitStream(data);
    SyncFirst(bits);
    hide Encode, BitStream;
    var e := Encode(bits, 1, false);
    assert Symbols([false, true, false, true, false, true, false, false] + e) == SYNC_LEVELS + Symbols(e);
  }

  /** The bits that a receiver which does not count the sync bit makes of the line. */
  function Received(bits: seq<bool>): seq<bool> {
    if |bits| >= 5 && bits[..5] == Not(Zeros(5)) then bits[..5] + [false] + bits[5..] else bits
  }

  lemma ReceivedEncode(bits: seq<bool>)
    requires |bits| >= 5
    ensures Encode(bits, 1, false) == Encode(Received(bits), 0, false)
  {
    if bits[..5] == Not(Zeros(5)) {
      assert forall i :: 0 <= i < 5 ==> bits[i] == Not(Zeros(5))[i];
      FiveOnes(bits);
    } else {
      var p := FirstZero(bits, 5);
      SameStuff(bits, 1, 0, p);
    }
  }

  lemma {:induction false} FirstZero(bits: seq<bool>, n: nat) returns (p: nat)
    requires n <= |bits| && bits[..n] != Not(Zeros(n))
    ensures p < n && !bits[p] && forall i :: 0 <= i < p ==> bits[i]
    decreases n
  {
    if n > 0 && !bits[0] {
      p := 0;
    } else {
      assert n > 0 && Not(Zeros(n)) == [true] + Not(Zeros(n - 1));
      assert bits[..n] == [true] + bits[1..][..n - 1];
      p := FirstZero(bits[1..], n - 1);
      p := p + 1;
    }
  }

  /** What the receiver has after as many bytes as were sent, and what is then left on the line. */
  lemma AfterAllBytes(data: seq<byte>) returns (s: Rx)
    requires 0 < |data| <= BUFSIZE
    ensures var r, n := Received(BitStream(data)), 8 * |data|;
            && s.run < 6 && |r| >= n
            && Carries(Heard(data), s.t, Encode(r[n..], s.run, s.level))
            && Listen(Heard(data), AFTER_SYNC, []) == Listen(Heard(data), s, BytesOf(r[..n]))
  {
    var bits := BitStream(data);
    AfterSync(data);
    ReceivedEncode(bits);
    hide Encode, BitStream, Listen, Heard, Wire;
    s := TakeBytes(Heard(data), AFTER_SYNC, [], Received(bits), |data|);
    assert [] + BytesOf(Received(bits)[..8 * |data|]) == BytesOf(Received(bits)[..8 * |data|]);
  }

  /** Every message whose first byte does not start with five ones comes back as it was sent. */
  lemma RoundTrip(data: seq<byte>)
    requires 0 < |data| <= BUFSIZE && data[0] % 32 != 31
    ensures Listen(Heard(data), AFTER_SYNC, []) == Packet(data)
  {
    var bits := BitStream(data);
    FiveOnesByte(data);
    var s := AfterAllBytes(data);
    BytesOfBitStream(data);
    hide Encode, BitStream, Listen, Heard, BytesOf;
    assert bits[..8 * |data|] == bits;
    assert bits[8 * |data|..] == [];
    PacketEnds(Heard(data), s, data, []);
  }

  lemma LowFive(r: Reg)
    ensures Weigh(r) % 32 == 31 <==> r[0] && r[1] && r[2] && r[3] && r[4]
  {
    var low := Weight(r[0], 1) + Weight(r[1], 2) + Weight(r[2], 4) + Weight(r[3], 8) + Weight(r[4], 16);
    var high := Weight(r[5], 1) + Weight(r[6], 2) + Weight(r[7], 4);
    assert Weigh(r) == low + 32 * high;
    assert Weigh(r) % 32 == low;
  }

  lemma FiveOnesByte(data: seq<byte>)
    requires data != []
    ensures BitStream(data)[..5] == Not(Zeros(5)) <==> data[0] % 32 == 31
  {
    hide BitsOf, ByteOf, Weigh, BitStream;
    var r := BitsOf(data[0]);
    StreamHead(data);
    ByteOfBitsOf(data[0]);
    WeighIsValue(r);
    LowFive(r);
    var b, ones := BitStream(data)[..5], Not(Zeros(5));
    assert forall i :: 0 <= i < 5 ==> b[i] == r[i] && ones[i];
    if b == ones {
      assert b[0] && b[1] && b[2] && b[3] && b[4];
    }
  }

  // ---- Exactly when a message survives ----

  /** The messages that come back unchanged: a first byte starting with five ones is spoilt by the sender's
      stuffed zero, unless everything after the five ones is zero, so that one zero more makes no difference. */
  predicate Survives(data: seq<byte>)
    requires data != []
  {
    data[0] % 32 != 31 || (data[0] == 31 && forall i :: 1 <= i < |data| ==> data[i] == 0)
  }

  /** Bytes that were received stay received. */
  lemma {:induction false} ListenExtends(line: seq<Symbol>, s: Rx, got: seq<byte>)
    requires |got| <= BUFSIZE
    ensures got <= Listen(line, s, got).bytes
    decreases BUFSIZE - |got|, 9
  {
    hide TakeBit, DropStuffed, NextBit, Sample, ByteOf;
    if |got| < BUFSIZE {
      ListenByteExtends(line, DropStuffed(line, TakeBit(line, s)), got, [NextBit(line, s)]);
    }
  }

  lemma {:induction false} ListenByteExtends(line: seq<Symbol>, s: Rx, got: seq<byte>, partial: seq<bool>)
    requires |got| < BUFSIZE && |partial| <= 8
    ensures got <= ListenByte(line, s, got, partial).bytes
    decreases BUFSIZE - |got|, 8 - |partial|
  {
    hide TakeBit, DropStuffed, NextBit, Sample, ByteOf;
    if |partial| == 8 {
      ListenExtends(line, s, got + [ByteOf(partial)]);
      Prefixes(got, [ByteOf(partial)], Listen(line, s, got + [ByteOf(partial)]).bytes);
    } else {
      ListenByteExtends(line, DropStuffed(line, TakeBit(line, s)), got, partial + [NextBit(line, s)]);
    }
  }

  lemma Prefixes(a: seq<byte>, b: seq<byte>, c: seq<byte>)
    requires a + b <= c
    ensures a <= c
  {
    assert a == (a + b)[..|a|] == c[..|a + b|][..|a|] == c[..|a|];
  }

  lemma {:induction false} BitStreamOfBytes(bits: seq<bool>)
    requires |bits| % 8 == 0
    ensures BitStream(BytesOf(bits)) == bits
    decreases |bits|
  {
    hide BitsOf, ByteOf;
    if bits != [] {
      BitsOfByteOf(bits[..8]);
      BitStreamOfBytes(bits[8..]);
      BytesHead(bits);
      StreamHead(BytesOf(bits));
      assert bits == bits[..8] + bits[8..];
    }
  }

  lemma BytesHead(bits: seq<bool>)
    requires |bits| >= 8
    ensures BytesOf(bits)[0] == ByteOf(bits[..8]) && BytesOf(bits)[1..] == BytesOf(bits[8..])
  {
    hide ByteOf;
  }

  /** All the bits from `k` on are zero. */
  predicate ZerosFrom(bits: seq<bool>, k: nat) { forall i :: k <= i < |bits| ==> !bits[i] }

  /** A zero inserted after the fifth bit goes unnoticed exactly when only zeros follow. */
  lemma {:induction false} InsertionUnnoticed(bits: seq<bool>, r: seq<bool>)
    requires |bits| >= 6 && r == bits[..5] + [false] + bits[5..]
    ensures r[..|bits|] == bits <==> ZerosFrom(bits, 5)
  {
    assert r[5] == false;
    assert forall i :: 6 <= i <= |bits| ==> r[i] == bits[i - 1];
    assert forall i :: 0 <= i < 5 ==> r[i] == bits[i];
    if r[..|bits|] == bits {
      assert forall i :: 0 <= i < |bits| ==> bits[i] == r[i];
      ShiftedZeros(bits, |bits|);
    } else if ZerosFrom(bits, 5) {
      assert forall i :: 0 <= i < |bits| ==> r[i] == bits[i];
    }
  }

  lemma {:induction false} ShiftedZeros(bits: seq<bool>, n: nat)
    requires 6 <= n <= |bits| && !bits[5]
    requires forall i :: 6 <= i < n ==> bits[i] == bits[i - 1]
    ensures forall i :: 5 <= i < n ==> !bits[i]
    decreases n
  {
    if n > 6 {
      ShiftedZeros(bits, n - 1);
      assert bits[n - 1] == bits[n - 2];
    }
  }

  lemma {:induction false} ZeroBytes(data: seq<byte>)
    ensures ZerosFrom(BitStream(data), 0) <==> forall i :: 0 <= i < |data| ==> data[i] == 0
  {
    if data != [] {
      ZeroBytes(data[1..]);
      var b, t, r := BitStream(data), BitStream(data[1..]), BitsOf(data[0]);
      ByteOfBitsOf(data[0]);
      SmallValues(r);
      hide BitsOf, ByteOf, BitStream;
      ZerosAppend(r, t);
      assert data == [data[0]] + data[1..];
    }
  }

  lemma ZerosAppend(a: seq<bool>, b: seq<bool>)
    ensures ZerosFrom(a + b, 0) <==> ZerosFrom(a, 0) && ZerosFrom(b, 0)
  {
    var c := a + b;
    assert forall i :: 0 <= i < |a| ==> c[i] == a[i];
    assert forall i :: 0 <= i < |b| ==> c[|a| + i] == b[i];
  }

  lemma SurvivesAsBits(data: seq<byte>)
    requires data != [] && data[0] % 32 == 31
    ensures Survives(data) <==> ZerosFrom(BitStream(data), 5)
  {
    hide BitsOf, BitStream;
    var r, t := BitsOf(data[0]), BitStream(data[1..]);
    ZeroBytes(data[1..]);
    TopBitsZero(data[0]);
    StreamHead(data);
    ZerosAppend(r[5..], t);
    ZerosFromDrop(r + t, 5);
    assert (r + t)[5..] == r[5..] + t;
    ZerosFromDrop(r, 5);
    assert forall i :: 1 <= i < |data| ==> data[i] == data[1..][i - 1];
    assert forall i :: 0 <= i < |data| - 1 ==> data[1..][i] == data[i + 1];
  }

  lemma StreamHead(data: seq<byte>)
    requires data != []
    ensures BitStream(data) == BitsOf(data[0]) + BitStream(data[1..])
  {
    hide BitsOf;
  }

  lemma ZerosFromDrop(b: seq<bool>, k: nat)
    requires k <= |b|
    ensures ZerosFrom(b, k) <==> ZerosFrom(b[k..], 0)
  {
    assert forall i :: k <= i < |b| ==> b[i] == b[k..][i - k];
    assert forall i :: 0 <= i < |b| - k ==> b[k..][i] == b[i + k];
  }

  lemma TopBitsZero(b: byte)
    requires b % 32 == 31
    ensures ZerosFrom(BitsOf(b), 5) <==> b == 31
  {
    var r := BitsOf(b);
    ByteOfBitsOf(b);
    WeighIsValue(r);
    LowFive(r);
    hide BitsOf, ByteOf;
    assert b == 31 + Weight(r[5], 32) + Weight(r[6], 64) + Weight(r[7], 128);
    if ZerosFrom(r, 5) {
      assert !r[5] && !r[6] && !r[7];
    }
  }

  /** The exact condition: a message comes back as it was sent if and only if it survives. */
  lemma RoundTripExactly(data: seq<byte>)
    requires 0 < |data| <= BUFSIZE
    ensures Listen(Heard(data), AFTER_SYNC, []) == Packet(data) <==> Survives(data)
  {
    if data[0] % 32 != 31 {
      RoundTrip(data);
    } else {
      SpoiltUnlessZero(data);
    }
  }

  /** Two messages of one byte whose first five bits are ones: 0x3f is spoilt, 0x1f is not. */
  lemma FiveOnesExamples()
    ensures Listen(Heard([0x3f]), AFTER_SYNC, []) != Packet([0x3f])
    ensures Listen(Heard([0x1f]), AFTER_SYNC, []) == Packet([0x1f])
  {
    hide Listen, Heard;
    RoundTripExactly([0x3f]);
    RoundTripExactly([0x1f]);
  }

  lemma SpoiltUnlessZero(data: seq<byte>)
    requires 0 < |data| <= BUFSIZE && data[0] % 32 == 31
    ensures Listen(Heard(data), AFTER_SYNC, []) == Packet(data) <==> Survives(data)
  {
    hide Listen, BitStream, Heard, BytesOf, Encode, ListenByte, Survives;
    var bits, line, n := BitStream(data), Heard(data), 8 * |data|;
    var r := Received(bits);
    FiveOnesByte(data);
    var s := AfterAllBytes(data);
    var got := BytesOf(r[..n]);
    InsertionUnnoticed(bits, r);
    SurvivesAsBits(data);
    BytesOfBitStream(data);
    BitStreamOfBytes(r[..n]);
    ListenExtends(line, s, got);
    assert |got| == |data|;
    if Survives(data) {
      assert r[n] == bits[n - 1];
      assert r[n..] == [false];
      PacketEnds(line, s, got, r[n..]);
    } else {
      assert got != data;
      if Listen(line, s, got) == Packet(data) {
        SameLength(got, data);
      }
    }
  }

  lemma SameLength(a: seq<byte>, b: seq<byte>)
    requires a <= b && |a| == |b|
    ensures a == b
  {
  }
}
