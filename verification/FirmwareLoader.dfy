/** UsbLpt_DFU_LoadFirmware: a firmware image goes block by block, with bounded retries, to a boot loader that may
    fail at any time, may then have written part of a block, and whose answers may be read late. */
module FirmwareLoader {
  import opened Bits
  import opened ByteMemory

  // ---- Commands ----

  datatype Command = Erase | LoadBlock(address: nat, data: seq<byte>) | Finalize(size: nat, sha512: seq<byte>)

  /** A command byte and its arguments. */
  function PacketOf(c: Command): seq<byte> {
    match c
    case Erase => [0x80]
    case LoadBlock(address, data) => [0x81] + (Le32(address) + data)
    case Finalize(size, sha512) => [0x82] + (Le32(size) + sha512)
  }

  /** How the boot loader reads a packet. */
  function CommandOf(b: seq<byte>): Command {
    if |b| >= 5 && b[0] == 0x81 then LoadBlock(Word(b[1..5]), b[5..])
    else if |b| >= 5 && b[0] == 0x82 then Finalize(Word(b[1..5]), b[5..])
    else Erase
  }

  /** Both ends mean the same command. */
  lemma CommandRoundTrip(c: Command)
    requires (c.LoadBlock? ==> c.address < TOP) && (c.Finalize? ==> c.size < TOP)
    ensures CommandOf(PacketOf(c)) == c
  {
    hide Le32, Word;
    if c.LoadBlock? {
      WordOfLe32(c.address);
      assert PacketOf(c)[1..5] == Le32(c.address) && PacketOf(c)[5..] == c.data;
    } else if c.Finalize? {
      WordOfLe32(c.size);
      assert PacketOf(c)[1..5] == Le32(c.size) && PacketOf(c)[5..] == c.sha512;
    }
  }

  /** A block in its packet: the command byte, the address with its bits lowest first, the data. */
  lemma BlockBytes(address: nat, data: seq<byte>)
    ensures var p := PacketOf(LoadBlock(address, data));
            |p| == 5 + |data| && p[0] == 0x81 && BitStream(p[1..5]) == LowBits(address, 32) && p[5..] == data
  {
    hide LowBits, BitStream, Le32;
    Le32IsLowestFirst(address);
    assert PacketOf(LoadBlock(address, data))[1..5] == Le32(address);
  }

  /** The end in its packet, and the erasure. */
  lemma EndBytes(size: nat, sha512: seq<byte>)
    ensures var p := PacketOf(Finalize(size, sha512));
            |p| == 5 + |sha512| && p[0] == 0x82 && BitStream(p[1..5]) == LowBits(size, 32) && p[5..] == sha512
    ensures PacketOf(Erase) == [0x80]
  {
    hide LowBits, BitStream, Le32;
    Le32IsLowestFirst(size);
    assert PacketOf(Finalize(size, sha512))[1..5] == Le32(size);
  }

  // ---- The device ----

  /** The only flash cells that a command may change. */
  ghost predicate InReach(c: Command, a: int) {
    match c
    case Erase => true
    case LoadBlock(address, data) => address <= a < address + |data|
    case Finalize(_, _) => false
  }

  ghost predicate Confined(c: Command, before: Memory, now: Memory) {
    forall a :: !InReach(c, a) ==> (a in now <==> a in before) && (a in now ==> now[a] == before[a])
  }

  /** What an executed command has done. An erased cell is not mapped. */
  ghost predicate Executed(c: Command, now: Memory) {
    match c
    case Erase => now == map[]
    case LoadBlock(address, data) => Holds(now, address, data)
    case Finalize(_, _) => true
  }

  /** What becomes of a command: it is lost; or carried out, and answered by a zero byte or not at all; or it goes wrong
      on the way and is not answered by a zero byte. */
  datatype Fate = Lost | Carried(answered: bool) | Spoilt(garbage: Memory, answer: seq<byte>)

  /** What the surroundings decide in one attempt: whether there is memory for the block and for the packet, what
      becomes of the command, and whether writing and reading the pipes report success. */
  datatype Turn = Turn(blockMemory: bool, packetMemory: bool, fate: Fate, written: bool, read: bool)

  /** `replies`: answers that nobody has read yet, oldest first. `turn`: attempts so far. The rest records what has
      happened: every command that was given to the pipe, those whose sender then read one zero byte, and whether a
      command was given to the pipe while a zero byte was the next answer to read. */
  datatype Device = Device(flash: Memory, replies: seq<seq<byte>>, turn: nat,
                           sent: seq<Command>, acknowledged: seq<Command>, stale: bool)

  function Flashed(c: Command, fate: Fate, flash: Memory): Memory {
    if fate.Lost? then flash
    else match c
      case Erase => if fate.Carried? then map[] else fate.garbage
      case LoadBlock(address, data) =>
        var cells := Addresses(address, |data|);
        if fate.Carried? then map a | a in flash.Keys + cells :: if a in cells then data[a - address] else flash[a]
        else map a | a in flash.Keys + cells * fate.garbage.Keys ::
               if a in cells && a in fate.garbage then fate.garbage[a] else flash[a]
      case Finalize(_, _) => flash
  }

  function Answers(fate: Fate): seq<seq<byte>> {
    match fate
    case Lost => []
    case Carried(answered) => if answered then [[0]] else []
    case Spoilt(_, answer) => if answer == [] then [] else if answer == [0] then [[1]] else [answer]
  }

  lemma FlashedIsConfined(c: Command, fate: Fate, flash: Memory)
    ensures Confined(c, flash, Flashed(c, fate, flash))
    ensures fate.Carried? ==> Executed(c, Flashed(c, fate, flash))
  {
  }

  /** The next answer to read is a zero byte, so that whoever sends a command now would take it for his own. */
  predicate Misleading(replies: seq<seq<byte>>) { replies != [] && replies[0] == [0] }

  /** After writing to the OUT pipe. */
  function Written(c: Command, t: Turn, d: Device): Device {
    d.(flash := Flashed(c, t.fate, d.flash), replies := d.replies + Answers(t.fate), turn := d.turn + 1,
       sent := d.sent + [c], stale := d.stale || Misleading(d.replies))
  }

  datatype Outcome = Outcome(dev: Device, ok: bool)

  /** One attempt: memory, the OUT pipe, the IN pipe, and the comparison with a single zero byte. */
  function Attempt(c: Command, t: Turn, d: Device): Outcome {
    if (c.LoadBlock? && !t.blockMemory) || !t.packetMemory then Outcome(d.(turn := d.turn + 1), false)
    else
      var e := Written(c, t, d);
      if !t.written || !t.read || e.replies == [] then Outcome(e, false)
      else
        var ok := e.replies[0] == [0];
        Outcome(e.(replies := e.replies[1..], acknowledged := e.acknowledged + if ok then [c] else []), ok)
  }

  /** At most `left` attempts. */
  function Tries(c: Command, script: nat -> Turn, d: Device, left: nat): Outcome
    decreases left
  {
    if left == 0 then Outcome(d, false)
    else
      var o := Attempt(c, script(d.turn), d);
      if o.ok then o else Tries(c, script, o.dev, left - 1)
  }

  function SendAll(blocks: seq<Command>, script: nat -> Turn, d: Device): Outcome {
    if blocks == [] then Outcome(d, true)
    else
      var o := Tries(blocks[0], script, d, MAX_TRY_COUNT);
      if o.ok then SendAll(blocks[1..], script, o.dev) else o
  }

  /** Erase, load, finalize. */
  function Load(base: nat, firmware: seq<byte>, sha512: seq<byte>, blockSize: nat, script: nat -> Turn,
                d: Device): Outcome
    requires blockSize > 0
  {
    var e := Attempt(Erase, script(d.turn), d);
    if !e.ok then e
    else
      var b := SendAll(Blocks(base, firmware, 0, blockSize), script, e.dev);
      if !b.ok then b else Attempt(Finalize(|firmware|, sha512), script(b.dev.turn), b.dev)
  }

  // ---- The image in blocks ----

  /** Blocks of `blockSize` bytes from `offset` on; the last one may be shorter. */
  function Blocks(base: nat, firmware: seq<byte>, offset: nat, blockSize: nat): seq<Command>
    requires blockSize > 0
    decreases |firmware| - offset
  {
    if offset >= |firmware| then []
    else [LoadBlock(base + offset, firmware[offset..Min(offset + blockSize, |firmware|)])]
         + Blocks(base, firmware, offset + blockSize, blockSize)
  }

  /** The blocks lie one behind the other from `at` on and hold the data. */
  predicate Tiles(blocks: seq<Command>, at: nat, data: seq<byte>) {
    if blocks == [] then data == []
    else
      && blocks[0].LoadBlock? && blocks[0].address == at && blocks[0].data != [] && blocks[0].data <= data
      && Tiles(blocks[1..], at + |blocks[0].data|, data[|blocks[0].data|..])
  }

  lemma {:induction false} BlocksTile(base: nat, firmware: seq<byte>, offset: nat, blockSize: nat)
    requires blockSize > 0 && offset <= |firmware|
    ensures Tiles(Blocks(base, firmware, offset, blockSize), base + offset, firmware[offset..])
    decreases |firmware| - offset
  {
    if offset < |firmware| {
      var end := Min(offset + blockSize, |firmware|);
      BlocksTile(base, firmware, end, blockSize);
      var blocks := Blocks(base, firmware, offset, blockSize);
      assert blocks[1..] == Blocks(base, firmware, end, blockSize);
      assert firmware[offset..][..end - offset] == firmware[offset..end];
      assert firmware[offset..][end - offset..] == firmware[end..];
    }
  }

  const MAX_TRY_COUNT: nat := 3

  /** One command, given to the pipe one to three times. */
  predicate Repeated(sent: seq<Command>, c: Command) {
    1 <= |sent| <= MAX_TRY_COUNT && forall i :: 0 <= i < |sent| ==> sent[i] == c
  }

  /** Each block was given to the pipe one to three times before the next one. */
  ghost predicate Attempted(sent: seq<Command>, blocks: seq<Command>)
    decreases |blocks|
  {
    if blocks == [] then sent == []
    else
      var last := |blocks| - 1;
      exists k :: 0 <= k <= |sent| && Attempted(sent[..k], blocks[..last]) && Repeated(sent[k..], blocks[last])
  }

  lemma AttemptedNext(sent: seq<Command>, blocks: seq<Command>, tries: seq<Command>, c: Command)
    requires Attempted(sent, blocks) && Repeated(tries, c)
    ensures Attempted(sent + tries, blocks + [c])
  {
    var s, b := sent + tries, blocks + [c];
    assert b[..|b| - 1] == blocks && s[..|sent|] == sent && s[|sent|..] == tries;
  }

  /** The first multiple of `b` that is not below `n`. */
  function RoundUp(n: nat, b: nat): (r: nat)
    requires b > 0
    ensures r >= n
    decreases n
  {
    if n == 0 then 0 else if n <= b then b else b + RoundUp(n - b, b)
  }

  predicate Multiple(n: nat, b: nat)
    requires b > 0
    decreases n
  {
    n == 0 || (n >= b && Multiple(n - b, b))
  }

  /** The offsets that the loop goes through. */
  predicate OnGrid(offset: nat, n: nat, b: nat) { b > 0 && Multiple(offset, b) && offset <= RoundUp(n, b) }

  /** As long as rounding up fits into 32 bits the offset does not wrap around. */
  lemma {:induction false} NextOffset(n: nat, b: nat, offset: nat)
    requires OnGrid(offset, n, b) && offset < n
    ensures OnGrid(offset + b, n, b)
    decreases offset
  {
    if offset > 0 {
      NextOffset(n - b, b, offset - b);
    }
  }

  // ---- What an answer is worth ----

  /** One attempt touches only its own cells and adds at most one command to the logs. If no zero byte was waiting to
      be read, an acknowledged command has been carried out. */
  lemma AttemptFacts(c: Command, t: Turn, d: Device)
    ensures var o := Attempt(c, t, d); var e := o.dev;
            && (e.sent == d.sent || e.sent == d.sent + [c]) && (o.ok ==> e.sent == d.sent + [c])
            && e.acknowledged == (if o.ok then d.acknowledged + [c] else d.acknowledged)
            && Confined(c, d.flash, e.flash) && (d.stale ==> e.stale)
            && (o.ok && !e.stale ==> Executed(c, e.flash))
  {
    hide Flashed, Confined, Executed;
    FlashedIsConfined(c, t.fate, d.flash);
    ConfinedItself(c, d.flash);
    if d.replies == [] { assert d.replies + Answers(t.fate) == Answers(t.fate); }
  }

  lemma ConfinedItself(c: Command, flash: Memory)
    ensures Confined(c, flash, flash)
  {
  }

  /** The commands that leave a trace in the flash. */
  predicate Telling(c: Command) { c.Erase? || (c.LoadBlock? && c.data != []) }

  /** The exact condition: an acknowledgement can be trusted, whatever the device and the pipes do, if and only if no
      zero byte is waiting to be read when the command is sent. */
  lemma AttemptExact(c: Command, d: Device)
    requires Telling(c)
    ensures (forall t: Turn :: Attempt(c, t, d).ok ==> Executed(c, Attempt(c, t, d).dev.flash))
            <==> !Misleading(d.replies)
  {
    hide Flashed, Executed;
    if Misleading(d.replies) {
      var g: Memory := if c.Erase? then map[0 := 0] else map[c.address := if c.data[0] == 0 then 1 else 0];
      var t := Turn(true, true, Spoilt(g, []), true, true);
      assert (if c.Erase? then 0 else c.address) in g;
      GarbageShows(c, g, d.flash);
      assert d.replies + Answers(t.fate) == d.replies;
      assert Attempt(c, t, d).ok && !Executed(c, Attempt(c, t, d).dev.flash);
    } else {
      forall t: Turn | Attempt(c, t, d).ok ensures Executed(c, Attempt(c, t, d).dev.flash) {
        AttemptFacts(c, t, d.(stale := false));
        assert Attempt(c, t, d).dev.flash == Attempt(c, t, d.(stale := false)).dev.flash;
        assert Attempt(c, t, d).ok == Attempt(c, t, d.(stale := false)).ok;
      }
    }
  }

  lemma GarbageShows(c: Command, g: Memory, flash: Memory)
    requires Telling(c) && (c.Erase? ==> g != map[])
    requires c.LoadBlock? ==> c.address in g && g[c.address] != c.data[0]
    ensures !Executed(c, Flashed(c, Spoilt(g, []), flash))
  {
    if c.LoadBlock? {
      var now := Flashed(c, Spoilt(g, []), flash);
      assert c.address in Addresses(c.address, |c.data|) && now[c.address] == g[c.address];
    }
  }

  /** A retry loop: its attempts are all at the same command. */
  lemma {:induction false} TriesFacts(c: Command, script: nat -> Turn, d: Device, left: nat)
    returns (tries: seq<Command>)
    ensures var o := Tries(c, script, d, left); var e := o.dev;
            && e.sent == d.sent + tries && |tries| <= left && (forall i :: 0 <= i < |tries| ==> tries[i] == c)
            && (o.ok ==> tries != [])
            && e.acknowledged == (if o.ok then d.acknowledged + [c] else d.acknowledged)
            && Confined(c, d.flash, e.flash) && (d.stale ==> e.stale)
            && (o.ok && !e.stale ==> Executed(c, e.flash))
    decreases left
  {
    hide Attempt, Executed, Confined;
    tries := [];
    ConfinedItself(c, d.flash);
    if left > 0 {
      var o := Attempt(c, script(d.turn), d);
      AttemptFacts(c, script(d.turn), d);
      if o.dev.sent != d.sent { tries := [c]; }
      if !o.ok {
        var rest := TriesFacts(c, script, o.dev, left - 1);
        ConfinedBoth(c, d.flash, o.dev.flash, Tries(c, script, o.dev, left - 1).dev.flash);
        tries := tries + rest;
      }
    }
  }

  lemma ConfinedBoth(c: Command, a: Memory, b: Memory, e: Memory)
    requires Confined(c, a, b) && Confined(c, b, e)
    ensures Confined(c, a, e)
  {
  }

  /** The blocks are acknowledged in order, each after one to three attempts. On failure a first part of them was
      acknowledged. */
  lemma {:induction false} SendAllLogs(blocks: seq<Command>, script: nat -> Turn, d: Device, before: seq<Command>,
                                       started: seq<Command>)
    returns (attempts: seq<Command>)
    requires Attempted(started, before)
    ensures var o := SendAll(blocks, script, d); var e := o.dev;
            && (o.ok ==> e.sent == d.sent + attempts && Attempted(started + attempts, before + blocks)
                         && e.acknowledged == d.acknowledged + blocks)
            && (!o.ok ==> e.acknowledged <= d.acknowledged + blocks)
    decreases |blocks|
  {
    hide Attempted, Tries, Confined, Executed;
    if blocks == [] {
      attempts := [];
      assert started + [] == started && before + [] == before;
    } else {
      var c, rest := blocks[0], blocks[1..];
      var tries := TriesFacts(c, script, d, MAX_TRY_COUNT);
      var o := Tries(c, script, d, MAX_TRY_COUNT);
      assert blocks == [c] + rest;
      attempts := tries;
      if o.ok {
        AttemptedNext(started, before, tries, c);
        var more := SendAllLogs(rest, script, o.dev, before + [c], started + tries);
        attempts := tries + more;
        Associates(started, tries, more);
        Associates(before, [c], rest);
        Associates(d.acknowledged, [c], rest);
        Associates(d.sent, tries, more);
      }
    }
  }

  lemma BlockArrives(c: Command, script: nat -> Turn, d: Device, base: nat, done: seq<byte>)
    requires c.LoadBlock? && c.address == base + |done|
    ensures var o := Tries(c, script, d, MAX_TRY_COUNT); var e := o.dev;
            && (d.stale ==> e.stale)
            && (o.ok && !e.stale && Holds(d.flash, base, done) ==> Holds(e.flash, base, done + c.data))
  {
    hide Tries, Confined, Executed, Holds;
    var tries := TriesFacts(c, script, d, MAX_TRY_COUNT);
    var o := Tries(c, script, d, MAX_TRY_COUNT);
    if o.ok && !o.dev.stale && Holds(d.flash, base, done) {
      BlockBehind(c, d.flash, o.dev.flash, base, done);
    }
  }

  lemma FirstTile(blocks: seq<Command>, at: nat, data: seq<byte>)
    requires Tiles(blocks, at, data) && blocks != []
    ensures var c := blocks[0]; c.LoadBlock? && c.address == at && |c.data| <= |data|
    ensures var c := blocks[0]; data == c.data + data[|c.data|..] && Tiles(blocks[1..], at + |c.data|, data[|c.data|..])
  {
  }

  /** If all are acknowledged, what they tile is in the flash behind what was there. */
  lemma {:induction false} SendAllHolds(blocks: seq<Command>, script: nat -> Turn, d: Device, base: nat,
                                        done: seq<byte>, data: seq<byte>)
    requires Tiles(blocks, base + |done|, data)
    ensures var o := SendAll(blocks, script, d); var e := o.dev;
            && (d.stale ==> e.stale)
            && (o.ok && !e.stale && Holds(d.flash, base, done) ==> Holds(e.flash, base, done + data))
    decreases |blocks|
  {
    hide Tries, Holds;
    if blocks == [] {
      assert done + data == done;
    } else {
      var c := blocks[0];
      FirstTile(blocks, base + |done|, data);
      BlockArrives(c, script, d, base, done);
      var o := Tries(c, script, d, MAX_TRY_COUNT);
      if o.ok {
        SendAllHolds(blocks[1..], script, o.dev, base, done + c.data, data[|c.data|..]);
        Associates(done, c.data, data[|c.data|..]);
      }
    }
  }

  /** A block behind the part that is already there completes a longer part. */
  lemma BlockBehind(c: Command, before: Memory, now: Memory, base: nat, done: seq<byte>)
    requires c.LoadBlock? && c.address == base + |done| && Holds(before, base, done)
    requires Confined(c, before, now) && Executed(c, now)
    ensures Holds(now, base, done + c.data)
  {
    assert Holds(now, base, done);
    HoldsBoth(now, base, done, c.data);
  }

  /** When the loader returns true the erasure was acknowledged first, then the blocks in order, each after at most
      three attempts, then the finalization, and nothing else; and if no command was sent while a zero byte was waiting
      to be read, the flash holds the image. Otherwise the finalization was not acknowledged. */
  lemma LoadFacts(base: nat, firmware: seq<byte>, sha512: seq<byte>, blockSize: nat, script: nat -> Turn, d: Device)
    returns (attempts: seq<Command>)
    requires blockSize > 0
    ensures var blocks, end := Blocks(base, firmware, 0, blockSize), Finalize(|firmware|, sha512);
            var o := Load(base, firmware, sha512, blockSize, script, d); var e := o.dev;
            && Tiles(blocks, base, firmware)
            && (o.ok ==> e.acknowledged == d.acknowledged + ([Erase] + blocks + [end])
                         && e.sent == d.sent + ([Erase] + attempts + [end]) && Attempted(attempts, blocks))
            && (!o.ok ==> e.acknowledged <= d.acknowledged + ([Erase] + blocks))
            && (o.ok && !e.stale ==> Holds(e.flash, base, firmware))
  {
    hide Attempt, SendAll, Blocks, Attempted, Holds, Confined;
    attempts := [];
    var blocks, end := Blocks(base, firmware, 0, blockSize), Finalize(|firmware|, sha512);
    assert firmware[0..] == firmware;
    BlocksTile(base, firmware, 0, blockSize);
    AttemptFacts(Erase, script(d.turn), d);
    var e := Attempt(Erase, script(d.turn), d);
    assert d.acknowledged <= d.acknowledged + ([Erase] + blocks);
    if e.ok {
      NothingYet(e.dev.flash, base);
      attempts := SendAllLogs(blocks, script, e.dev, [], []);
      SendAllHolds(blocks, script, e.dev, base, [], firmware);
      var b := SendAll(blocks, script, e.dev);
      NothingInFront(attempts, blocks, firmware);
      Regrouped(d.acknowledged, Erase, blocks, end);
      if b.ok {
        AttemptFacts(end, script(b.dev.turn), b.dev);
        StillLoaded(b.dev.flash, Attempt(end, script(b.dev.turn), b.dev).dev.flash, |firmware|, sha512);
        Regrouped(d.sent, Erase, attempts, end);
      }
    }
  }

  lemma Regrouped(log: seq<Command>, first: Command, middle: seq<Command>, last: Command)
    ensures log + [first] + middle == log + ([first] + middle)
    ensures log + [first] + middle + [last] == log + ([first] + middle + [last])
  {
  }

  lemma NothingInFront(a: seq<Command>, b: seq<Command>, c: seq<byte>)
    ensures [] + a == a && [] + b == b && [] + c == c
  {
  }

  lemma NothingYet(flash: Memory, base: nat)
    ensures Holds(flash, base, []) && Attempted([], [])
  {
  }

  // ---- When every answer is read ----

  /** Whoever is answered learns of it: an attempt that is answered reports success in writing and reading. Commands may
      still be lost or spoilt, with or without an answer, and memory may be short. */
  ghost predicate AnswersAreRead(script: nat -> Turn, from: nat) {
    forall k :: k >= from ==> Answers(script(k).fate) == [] || (script(k).written && script(k).read)
  }

  /** No answer is left over, and none was when commands were sent. */
  predicate Drained(d: Device) { d.replies == [] && !d.stale }

  lemma AttemptDrains(c: Command, script: nat -> Turn, d: Device)
    requires Drained(d) && AnswersAreRead(script, d.turn)
    ensures var e := Attempt(c, script(d.turn), d).dev; Drained(e) && AnswersAreRead(script, e.turn)
  {
    hide Flashed;
    var t := script(d.turn);
    assert d.replies + Answers(t.fate) == Answers(t.fate);
    assert |Answers(t.fate)| <= 1;
  }

  lemma {:induction false} TriesDrain(c: Command, script: nat -> Turn, d: Device, left: nat)
    requires Drained(d) && AnswersAreRead(script, d.turn)
    ensures var e := Tries(c, script, d, left).dev; Drained(e) && AnswersAreRead(script, e.turn)
    decreases left
  {
    hide Attempt, Drained, AnswersAreRead;
    if left > 0 {
      AttemptDrains(c, script, d);
      var o := Attempt(c, script(d.turn), d);
      if !o.ok { TriesDrain(c, script, o.dev, left - 1); }
    }
  }

  lemma {:induction false} SendAllDrains(blocks: seq<Command>, script: nat -> Turn, d: Device)
    requires Drained(d) && AnswersAreRead(script, d.turn)
    ensures var e := SendAll(blocks, script, d).dev; Drained(e) && AnswersAreRead(script, e.turn)
    decreases |blocks|
  {
    hide Tries, Drained, AnswersAreRead;
    if blocks != [] {
      TriesDrain(blocks[0], script, d, MAX_TRY_COUNT);
      SendAllDrains(blocks[1..], script, Tries(blocks[0], script, d, MAX_TRY_COUNT).dev);
    }
  }

  /** Known before the call: if no answer is left over and every answer is read, true means that the image is there,
      whatever else fails. */
  lemma LoadIsReliable(base: nat, firmware: seq<byte>, sha512: seq<byte>, blockSize: nat, script: nat -> Turn,
                       d: Device)
    requires blockSize > 0 && Drained(d) && AnswersAreRead(script, d.turn)
    ensures var o := Load(base, firmware, sha512, blockSize, script, d);
            Drained(o.dev) && (o.ok ==> Holds(o.dev.flash, base, firmware))
  {
    hide Attempt, SendAll, Blocks, Holds, AnswersAreRead, Tiles, Attempted;
    AttemptDrains(Erase, script, d);
    var e := Attempt(Erase, script(d.turn), d).dev;
    SendAllDrains(Blocks(base, firmware, 0, blockSize), script, e);
    var b := SendAll(Blocks(base, firmware, 0, blockSize), script, e).dev;
    AttemptDrains(Finalize(|firmware|, sha512), script, b);
    var attempts := LoadFacts(base, firmware, sha512, blockSize, script, d);
  }

  // ---- When nothing fails, and when a reply is read late ----

  predicate GoodTurn(t: Turn) { t == Turn(true, true, Carried(true), true, true) }

  lemma GoodAttempt(c: Command, t: Turn, d: Device)
    requires GoodTurn(t) && d.replies == []
    ensures var o := Attempt(c, t, d); o.ok && o.dev.replies == [] && o.dev.stale == d.stale && o.dev.turn == d.turn + 1
  {
    hide Flashed;
    assert d.replies + Answers(t.fate) == [[0]];
  }

  lemma {:induction false} GoodBlocks(blocks: seq<Command>, script: nat -> Turn, d: Device)
    requires d.replies == [] && forall k :: k >= d.turn ==> GoodTurn(script(k))
    ensures var o := SendAll(blocks, script, d);
            o.ok && o.dev.replies == [] && o.dev.stale == d.stale && o.dev.turn >= d.turn
    decreases |blocks|
  {
    hide Attempt, GoodTurn;
    if blocks != [] {
      GoodAttempt(blocks[0], script(d.turn), d);
      GoodBlocks(blocks[1..], script, Attempt(blocks[0], script(d.turn), d).dev);
    }
  }

  /** Without a fault, and with no reply left from before, the loader returns true and the image is there. */
  lemma UndisturbedLoad(base: nat, firmware: seq<byte>, sha512: seq<byte>, blockSize: nat, script: nat -> Turn,
                        d: Device)
    requires blockSize > 0 && d.replies == [] && !d.stale && forall k :: k >= d.turn ==> GoodTurn(script(k))
    ensures var o := Load(base, firmware, sha512, blockSize, script, d); o.ok && Holds(o.dev.flash, base, firmware)
  {
    hide Attempt, SendAll, Blocks, Holds, GoodTurn;
    GoodAttempt(Erase, script(d.turn), d);
    var e := Attempt(Erase, script(d.turn), d).dev;
    GoodBlocks(Blocks(base, firmware, 0, blockSize), script, e);
    var b := SendAll(Blocks(base, firmware, 0, blockSize), script, e).dev;
    GoodAttempt(Finalize(|firmware|, sha512), script(b.turn), b);
    var attempts := LoadFacts(base, firmware, sha512, blockSize, script, d);
  }

  /** A retry loop succeeds if one of its turns is undisturbed and the answers of the others are read. */
  lemma {:induction false} TriesSucceed(c: Command, script: nat -> Turn, d: Device, left: nat, k: nat)
    requires d.replies == [] && AnswersAreRead(script, d.turn) && k < left && GoodTurn(script(d.turn + k))
    ensures Tries(c, script, d, left).ok
    decreases left
  {
    hide Attempt, AnswersAreRead, GoodTurn;
    if k == 0 {
      GoodAttempt(c, script(d.turn), d);
    } else {
      var clean := d.(stale := false);
      AttemptDrains(c, script, clean);
      var o := Attempt(c, script(d.turn), d);
      StaleIsHistory(c, script(d.turn), d);
      if !o.ok { TriesSucceed(c, script, o.dev, left - 1, k - 1); }
    }
  }

  /** Whether a command was stale before does not matter to an attempt, which is one turn. */
  lemma StaleIsHistory(c: Command, t: Turn, d: Device)
    ensures var a, b := Attempt(c, t, d), Attempt(c, t, d.(stale := false));
            a.ok == b.ok && a.dev == b.dev.(stale := a.dev.stale) && a.dev.turn == d.turn + 1
  {
    hide Flashed, Answers;
  }

  /** Three attempts: no block is given to the pipe more often, and one undisturbed turn in three is enough. */
  lemma ThreeAttempts(address: nat, data: seq<byte>, script: nat -> Turn, d: Device, k: nat)
    ensures |d.sent| <= |Tries(LoadBlock(address, data), script, d, MAX_TRY_COUNT).dev.sent| <= |d.sent| + 3
    ensures d.replies == [] && AnswersAreRead(script, d.turn) && k < 3 && GoodTurn(script(d.turn + k)) ==>
              Tries(LoadBlock(address, data), script, d, MAX_TRY_COUNT).ok
  {
    hide Tries, GoodTurn, AnswersAreRead, Confined, Executed;
    var c := LoadBlock(address, data);
    var tries := TriesFacts(c, script, d, MAX_TRY_COUNT);
    if d.replies == [] && AnswersAreRead(script, d.turn) && k < 3 && GoodTurn(script(d.turn + k)) {
      TriesSucceed(c, script, d, MAX_TRY_COUNT, k);
    }
  }

  const FINE := Turn(true, true, Carried(true), true, true)

  /** Writing the first block is reported to have failed, but the block arrives and is answered; everything else that
      happens is that the second block is lost. */
  function LateReply(k: nat): Turn {
    if k == 1 then FINE.(written := false) else if k == 3 then FINE.(fate := Lost) else FINE
  }

  /** A run in which the loader returns true and the second byte of the image is not in the flash: the answer to the
      first attempt is read by the second one, and that to the second one stands for the lost block. */
  lemma TrueOverWrongFlash(sha512: seq<byte>)
    ensures var o := Load(0, [1, 2], sha512, 1, LateReply, Device(map[], [], 0, [], [], false));
            o.ok && o.dev.stale && !Holds(o.dev.flash, 0, [1, 2])
  {
    hide Flashed, Attempt, Tries, SendAll, Confined;
    var d0 := Device(map[], [], 0, [], [], false);
    var a, b, end := LoadBlock(0, [1]), LoadBlock(1, [2]), Finalize(2, sha512);
    TwoBlocks();
    AttemptFacts(Erase, FINE, d0);
    GoodAttempt(Erase, FINE, d0);
    var d1 := Attempt(Erase, FINE, d0).dev;
    LateAnswer(a, d1);
    var d2 := Attempt(a, LateReply(1), d1).dev;
    LateAnswer(a, d2);
    var d3 := Attempt(a, LateReply(2), d2).dev;
    LateAnswer(b, d3);
    var d4 := Attempt(b, LateReply(3), d3).dev;
    GoodAttempt(end, LateReply(4), d4);
    AttemptFacts(end, LateReply(4), d4);
    StillLoaded(d4.flash, Attempt(end, LateReply(4), d4).dev.flash, 2, sha512);
    SecondTry(a, d1);
    FirstTry(b, d3);
    OneByOne(a, b, d1, d3);
    AttemptFacts(a, LateReply(1), d1);
    AttemptFacts(a, LateReply(2), d2);
    SecondByte(d1.flash, d2.flash);
    SecondByte(d2.flash, d3.flash);
  }

  /** The second of two bytes is not touched by the first one's block. */
  lemma SecondByte(before: Memory, now: Memory)
    requires Confined(LoadBlock(0, [1]), before, now) && 1 !in before
    ensures 1 !in now
  {
    assert !InReach(LoadBlock(0, [1]), 1);
  }

  lemma TwoBlocks()
    ensures Blocks(0, [1, 2], 0, 1) == [LoadBlock(0, [1]), LoadBlock(1, [2])]
  {
    var f: seq<byte> := [1, 2];
    assert Blocks(0, f, 2, 1) == [];
    assert Blocks(0, f, 1, 1) == [LoadBlock(1, f[1..2])] + [];
    assert f[0..1] == [1] && f[1..2] == [2];
  }

  /** How answers fall behind: an attempt reported as failed leaves its answer, the next one takes it and leaves its
      own, and a lost command takes that. */
  lemma LateAnswer(c: Command, d: Device)
    ensures d.replies == [] ==>
              var o := Attempt(c, LateReply(1), d); !o.ok && o.dev.replies == [[0]] && o.dev.turn == d.turn + 1
    ensures d.replies == [[0]] ==>
              var o := Attempt(c, LateReply(2), d);
              o.ok && o.dev.replies == [[0]] && o.dev.stale && o.dev.turn == d.turn + 1
    ensures d.replies == [[0]] ==>
              var o := Attempt(c, LateReply(3), d);
              o.ok && o.dev.replies == [] && o.dev.flash == d.flash && o.dev.turn == d.turn + 1
              && (d.stale ==> o.dev.stale)
  {
    hide Flashed;
    assert Flashed(c, Lost, d.flash) == d.flash by { LostIsNothing(c, d.flash); }
    if d.replies == [] {
      assert d.replies + [[0]] == [[0]];
    } else if d.replies == [[0]] {
      assert d.replies + [[0]] == [[0], [0]] && [[0], [0]][1..] == [[0]];
      assert d.replies + [] == [[0]] && [[0]][1..] == [];
    }
  }

  lemma LostIsNothing(c: Command, flash: Memory)
    ensures Flashed(c, Lost, flash) == flash
  {
  }

  lemma FirstTry(c: Command, d: Device)
    requires Attempt(c, LateReply(d.turn), d).ok
    ensures Tries(c, LateReply, d, MAX_TRY_COUNT) == Attempt(c, LateReply(d.turn), d)
  {
    hide Attempt;
  }

  lemma SecondTry(c: Command, d: Device)
    requires var o := Attempt(c, LateReply(d.turn), d); !o.ok && Attempt(c, LateReply(o.dev.turn), o.dev).ok
    ensures var e := Attempt(c, LateReply(d.turn), d).dev;
            Tries(c, LateReply, d, MAX_TRY_COUNT) == Attempt(c, LateReply(e.turn), e)
  {
    hide Attempt;
    var e := Attempt(c, LateReply(d.turn), d).dev;
    assert Tries(c, LateReply, e, MAX_TRY_COUNT - 1) == Attempt(c, LateReply(e.turn), e);
  }

  lemma OneByOne(a: Command, b: Command, d: Device, e: Device)
    requires Tries(a, LateReply, d, MAX_TRY_COUNT) == Outcome(e, true) && Tries(b, LateReply, e, MAX_TRY_COUNT).ok
    ensures SendAll([a, b], LateReply, d) == Tries(b, LateReply, e, MAX_TRY_COUNT)
  {
    hide Tries;
    var f := Tries(b, LateReply, e, MAX_TRY_COUNT).dev;
    assert [a, b][1..] == [b] && [b][1..] == [];
    assert SendAll([], LateReply, f) == Outcome(f, true);
    assert SendAll([b], LateReply, e) == Outcome(f, true);
  }

  lemma StillLoaded(before: Memory, now: Memory, size: nat, sha512: seq<byte>)
    requires Confined(Finalize(size, sha512), before, now)
    ensures now == before
  {
    forall a ensures (a in now <==> a in before) && (a in now ==> now[a] == before[a]) {
      assert !InReach(Finalize(size, sha512), a);
    }
  }

  // ---- The program ----

  /** The device and the pipes to it, driven by a script. */
  class BootLoader {
    const script: nat -> Turn
    var flash: Memory
    var replies: seq<seq<byte>>
    var turn: nat
    ghost var sent: seq<Command>
    ghost var acknowledged: seq<Command>
    ghost var stale: bool

    constructor (script: nat -> Turn, flash: Memory)
      ensures this.script == script && View() == Device(flash, [], 0, [], [], false)
    {
      this.script, this.flash, replies, turn := script, flash, [], 0;
      sent, acknowledged, stale := [], [], false;
    }

    ghost function View(): Device
      reads this
    {
      Device(flash, replies, turn, sent, acknowledged, stale)
    }

    /** The OUT pipe. */
    method WritePipe(buf: seq<byte>) returns (ok: bool)
      modifies this
      ensures ok == script(old(turn)).written && View() == Written(CommandOf(buf), script(old(turn)), old(View()))
    {
      var c, t := CommandOf(buf), script(turn);
      sent, stale := sent + [c], stale || Misleading(replies);
      flash, replies, turn := Flashed(c, t.fate, flash), replies + Answers(t.fate), turn + 1;
      ok := t.written;
    }

    /** The IN pipe gives the oldest answer that has not been read. */
    method ReadPipe() returns (ok: bool, reply: seq<byte>)
      requires turn > 0
      modifies this`replies
      ensures ok == (script(turn - 1).read && old(replies) != [])
      ensures ok ==> reply == old(replies)[0] && replies == old(replies)[1..]
      ensures !ok ==> replies == old(replies)
    {
      ok, reply := script(turn - 1).read && replies != [], [];
      if ok {
        reply, replies := replies[0], replies[1..];
      }
    }
  }

  /** malloc; a failure ends the attempt. */
  method Allocate(dev: BootLoader, n: nat, available: bool) returns (buf: array?<byte>)
    modifies dev`turn
    ensures available == (buf != null) && (buf != null ==> fresh(buf) && buf.Length == n)
    ensures dev.turn == old(dev.turn) + if available then 0 else 1
  {
    buf := null;
    if available {
      buf := new byte[n](_ => 0);
    } else {
      dev.turn := dev.turn + 1;
    }
  }

  /** memcpy(buf + at, data, |data|) */
  method Copy(buf: array<byte>, at: nat, data: seq<byte>)
    requires at + |data| <= buf.Length
    modifies buf
    ensures buf[..] == old(buf[..at]) + data + old(buf[at + |data|..])
  {
    var i := 0;
    while i < |data|
      invariant i <= |data|
      invariant forall k :: 0 <= k < buf.Length ==> buf[k] == if at <= k < at + i then data[k - at] else old(buf[k])
    {
      buf[at + i] := data[i];
      i := i + 1;
    }
  }

  /** Whether the reply is one zero byte is for the caller to see. */
  ghost predicate Answered(before: Device, now: Device, c: Command, t: Turn, ok: bool, reply: seq<byte>) {
    if !t.packetMemory then !ok && now == before.(turn := before.turn + 1)
    else
      var e := Written(c, t, before);
      if !t.written || !t.read || e.replies == [] then !ok && now == e
      else ok && reply == e.replies[0] && now == e.(replies := e.replies[1..])
  }

  /** UsbLpt_BulkCmd with a reply. */
  method BulkCmd(dev: BootLoader, cmd: byte, data: seq<byte>) returns (ok: bool, reply: seq<byte>)
    modifies dev
    ensures Answered(old(dev.View()), dev.View(), CommandOf([cmd] + data), dev.script(old(dev.turn)), ok, reply)
  {
    var buf := Allocate(dev, 1 + |data|, dev.script(dev.turn).packetMemory);
    if buf == null {
      return false, [];
    }
    buf[0] := cmd;
    Copy(buf, 1, data);
    assert buf[..] == [cmd] + data;
    var written := dev.WritePipe(buf[..]);
    if !written {
      return false, [];
    }
    ok, reply := dev.ReadPipe();
  }

  /** Sends a command and compares the answer. */
  twostate predicate Sent(dev: BootLoader, c: Command, ok: bool)
    reads dev
  {
    Outcome(dev.View(), ok) == Attempt(c, dev.script(old(dev.turn)), old(dev.View()))
  }

  method EraseFlash(dev: BootLoader) returns (ok: bool)
    modifies dev
    ensures Sent(dev, Erase, ok)
  {
    hide Flashed;
    assert [0x80] + [] == [0x80];
    var done, reply := BulkCmd(dev, 0x80, []);
    ok := done && reply == [0];
    if ok { dev.acknowledged := dev.acknowledged + [Erase]; }
  }

  method SendFirmware(dev: BootLoader, address: nat, data: seq<byte>) returns (ok: bool)
    requires address < TOP
    modifies dev
    ensures Sent(dev, LoadBlock(address, data), ok)
  {
    hide Flashed;
    var sendFw := Allocate(dev, 4 + |data|, dev.script(dev.turn).blockMemory);
    if sendFw == null {
      return false;
    }
    Copy(sendFw, 0, Le32(address));
    Copy(sendFw, 4, data);
    assert sendFw[..] == Le32(address) + data;
    CommandRoundTrip(LoadBlock(address, data));
    var done, reply := BulkCmd(dev, 0x81, sendFw[..]);
    ok := done && reply == [0];
    if ok { dev.acknowledged := dev.acknowledged + [LoadBlock(address, data)]; }
  }

  method SendFinalize(dev: BootLoader, size: nat, sha512: seq<byte>) returns (ok: bool)
    requires size < TOP
    modifies dev
    ensures Sent(dev, Finalize(size, sha512), ok)
  {
    hide Flashed;
    CommandRoundTrip(Finalize(size, sha512));
    var done, reply := BulkCmd(dev, 0x82, Le32(size) + sha512);
    ok := done && reply == [0];
    if ok { dev.acknowledged := dev.acknowledged + [Finalize(size, sha512)]; }
  }

  /** The retry loop: at most three attempts at the same block. */
  method SendBlock(dev: BootLoader, address: nat, data: seq<byte>) returns (success: bool)
    requires address < TOP
    modifies dev
    ensures Outcome(dev.View(), success) == Tries(LoadBlock(address, data), dev.script, old(dev.View()), MAX_TRY_COUNT)
  {
    hide Attempt;
    ghost var c := LoadBlock(address, data);
    var try_ := 0;
    success := false;
    while try_ < MAX_TRY_COUNT
      invariant try_ <= MAX_TRY_COUNT && !success
      invariant Tries(c, dev.script, old(dev.View()), MAX_TRY_COUNT)
             == Tries(c, dev.script, dev.View(), MAX_TRY_COUNT - try_)
    {
      success := SendFirmware(dev, address, data);
      if success {
        break;
      }
      try_ := try_ + 1;
    }
  }

  lemma BlocksNext(base: nat, firmware: seq<byte>, offset: nat, blockSize: nat)
    requires blockSize > 0 && offset < |firmware|
    ensures var blocks := Blocks(base, firmware, offset, blockSize);
            && blocks != [] && blocks[1..] == Blocks(base, firmware, offset + blockSize, blockSize)
            && blocks[0] == LoadBlock(base + offset, firmware[offset..Min(offset + blockSize, |firmware|)])
  {
  }

  /** The block loop. */
  method LoadBlocks(dev: BootLoader, base: nat, firmware: seq<byte>, blockSize: nat) returns (ok: bool)
    requires blockSize > 0 && RoundUp(|firmware|, blockSize) < TOP && base + |firmware| <= TOP
    modifies dev
    ensures Outcome(dev.View(), ok) == SendAll(Blocks(base, firmware, 0, blockSize), dev.script, old(dev.View()))
  {
    hide Blocks, RoundUp, OnGrid, Tries;
    var firmwareOffset := 0;
    StartEmpty(|firmware|, blockSize);
    ghost var blocks := Blocks(base, firmware, 0, blockSize);
    while firmwareOffset < |firmware|
      invariant OnGrid(firmwareOffset, |firmware|, blockSize)
      invariant SendAll(blocks, dev.script, old(dev.View()))
             == SendAll(Blocks(base, firmware, firmwareOffset, blockSize), dev.script, dev.View())
      decreases |firmware| - firmwareOffset
    {
      var chunkSize := Min(|firmware| - firmwareOffset, blockSize);
      BlocksNext(base, firmware, firmwareOffset, blockSize);
      var success := SendBlock(dev, base + firmwareOffset, firmware[firmwareOffset..firmwareOffset + chunkSize]);
      if !success {
        return false;
      }
      NextOffset(|firmware|, blockSize, firmwareOffset);
      GridBelow(firmwareOffset + blockSize, |firmware|, blockSize);
      firmwareOffset := (firmwareOffset + blockSize) % TOP;
    }
    NoBlocksLeft(base, firmware, firmwareOffset, blockSize);
    ok := true;
  }

  /** UsbLpt_DFU_LoadFirmware. */
  method LoadFirmware(dev: BootLoader, base: nat, firmware: seq<byte>, sha512: seq<byte>, blockSize: nat)
    returns (ok: bool)
    requires blockSize > 0 && RoundUp(|firmware|, blockSize) < TOP && base + |firmware| <= TOP
    modifies dev
    ensures Outcome(dev.View(), ok) == Load(base, firmware, sha512, blockSize, dev.script, old(dev.View()))
    ensures ok && !dev.stale ==> Holds(dev.flash, base, firmware)
    ensures Drained(old(dev.View())) && AnswersAreRead(dev.script, old(dev.turn)) && ok ==> Holds(dev.flash, base, firmware)
  {
    hide Blocks, Attempt, SendAll, Holds, RoundUp, Tiles, Attempted, AnswersAreRead;
    ghost var attempts := LoadFacts(base, firmware, sha512, blockSize, dev.script, dev.View());
    if Drained(dev.View()) && AnswersAreRead(dev.script, dev.turn) {
      LoadIsReliable(base, firmware, sha512, blockSize, dev.script, dev.View());
    }
    ok := EraseFlash(dev);
    if !ok {
      return;
    }
    ok := LoadBlocks(dev, base, firmware, blockSize);
    if !ok {
      return;
    }
    ok := SendFinalize(dev, |firmware|, sha512);
  }

  lemma StartEmpty(n: nat, b: nat)
    requires b > 0
    ensures OnGrid(0, n, b)
  {
  }

  lemma GridBelow(offset: nat, n: nat, b: nat)
    requires OnGrid(offset, n, b) && RoundUp(n, b) < TOP
    ensures offset % TOP == offset
  {
  }

  lemma NoBlocksLeft(base: nat, firmware: seq<byte>, offset: nat, blockSize: nat)
    requires blockSize > 0 && offset >= |firmware|
    ensures Blocks(base, firmware, offset, blockSize) == []
  {
  }
}
