/** The line code of USB 2.0: bit stuffing (section 7.1.9) over NRZI (section 7.1.8). A level is
    the state of D-: `true` for J, the idle state, and `false` for K. */
module LineCode {
  import opened Bits

  const IDLE := true

  /** Bit stuffing after `run` ones: a zero is inserted after every six consecutive ones. */
  function Stuff(bits: seq<bool>, run: nat): seq<bool>
    requires run < 6
  {
    if bits == [] then []
    else if !bits[0] then [false] + Stuff(bits[1..], 0)
    else if run < 5 then [true] + Stuff(bits[1..], run + 1)
    else [true, false] + Stuff(bits[1..], 0)
  }

  /** A receiver that counts ones and drops whatever follows the sixth. */
  function Unstuff(bits: seq<bool>, run: nat): seq<bool>
    requires run <= 6
  {
    if bits == [] then []
    else if run == 6 then Unstuff(bits[1..], 0)
    else [bits[0]] + Unstuff(bits[1..], if bits[0] then run + 1 else 0)
  }

  /** The level toggles for a zero and stays for a one. */
  function Nrzi(bits: seq<bool>, level: bool): (levels: seq<bool>)
    ensures |levels| == |bits|
  {
    if bits == [] then []
    else
      var next := bits[0] == level;
      [next] + Nrzi(bits[1..], next)
  }

  function UnNrzi(levels: seq<bool>, level: bool): seq<bool> {
    if levels == [] then [] else [levels[0] == level] + UnNrzi(levels[1..], levels[0])
  }

  /** The levels for a message, after `run` ones and with the line at `level`. */
  function Encode(bits: seq<bool>, run: nat, level: bool): seq<bool>
    requires run < 6
  {
    Nrzi(Stuff(bits, run), level)
  }

  /** The sync pattern as a byte, 0x80: seven zeros and a one. */
  const SYNC: Reg := [false, false, false, false, false, false, false, true]

  // ---- Both codes lose nothing ----

  lemma {:induction false} NrziRoundTrip(bits: seq<bool>, level: bool)
    ensures UnNrzi(Nrzi(bits, level), level) == bits
  {
    if bits != [] {
      var next := bits[0] == level;
      NrziRoundTrip(bits[1..], next);
      assert Nrzi(bits, level)[1..] == Nrzi(bits[1..], next);
    }
  }

  lemma {:induction false} StuffRoundTrip(bits: seq<bool>, run: nat)
    requires run < 6
    ensures Unstuff(Stuff(bits, run), run) == bits
  {
    if bits != [] {
      var s := Stuff(bits, run);
      if !bits[0] {
        StuffRoundTrip(bits[1..], 0);
        assert s[1..] == Stuff(bits[1..], 0);
      } else if run < 5 {
        StuffRoundTrip(bits[1..], run + 1);
        assert s[1..] == Stuff(bits[1..], run + 1);
      } else {
        StuffRoundTrip(bits[1..], 0);
        assert s[1..] == [false] + Stuff(bits[1..], 0);
        assert s[1..][1..] == Stuff(bits[1..], 0);
      }
    }
  }

  /** A stuffed message never has seven ones in a row. */
  lemma {:induction false} StuffBreaksRuns(bits: seq<bool>, run: nat)
    requires run < 6
    ensures MaxRun(Stuff(bits, run), run)
  {
    if bits != [] {
      var s := Stuff(bits, run);
      if !bits[0] {
        StuffBreaksRuns(bits[1..], 0);
        assert s[1..] == Stuff(bits[1..], 0);
      } else if run < 5 {
        StuffBreaksRuns(bits[1..], run + 1);
        assert s[1..] == Stuff(bits[1..], run + 1);
      } else {
        StuffBreaksRuns(bits[1..], 0);
        assert s[1..] == [false] + Stuff(bits[1..], 0);
        assert s[1..][1..] == Stuff(bits[1..], 0);
      }
    }
  }

  /** After `run` ones, no further run of ones in the line bits exceeds six. */
  predicate MaxRun(line: seq<bool>, run: nat)
    requires run <= 6
  {
    line == [] || if line[0] then run < 6 && MaxRun(line[1..], run + 1) else MaxRun(line[1..], 0)
  }

  // ---- One bit at a time ----

  lemma EncodeZero(rest: seq<bool>, run: nat, level: bool)
    requires run < 6
    ensures Encode([false] + rest, run, level) == [!level] + Encode(rest, 0, !level)
  {
    assert ([false] + rest)[1..] == rest;
    var s := Stuff([false] + rest, run);
    assert s[1..] == Stuff(rest, 0);
  }

  lemma EncodeOne(rest: seq<bool>, run: nat, level: bool)
    requires run < 5
    ensures Encode([true] + rest, run, level) == [level] + Encode(rest, run + 1, level)
  {
    assert ([true] + rest)[1..] == rest;
    var s := Stuff([true] + rest, run);
    assert s[1..] == Stuff(rest, run + 1);
  }

  lemma EncodeSixthOne(rest: seq<bool>, level: bool)
    ensures Encode([true] + rest, 5, level) == [level, !level] + Encode(rest, 0, !level)
  {
    assert ([true] + rest)[1..] == rest;
    var s := Stuff([true] + rest, 5);
    assert s[1..] == [false] + Stuff(rest, 0);
    assert s[1..][1..] == Stuff(rest, 0);
    assert Nrzi(s[1..], level) == [!level] + Nrzi(s[1..][1..], !level);
  }
}
