/** PatchIoInstruction: an IN or OUT instruction in another process is replaced by a jump to a trampoline. */
module X86Patch {
  import opened Bits
  import opened ByteMemory
  import opened X86Sweep

  // ---- The memory of the other process ----

  /** What the system decides in one call: where there is room for new memory, whether a write reports success, and
      how many bytes it has written. */
  datatype Call = Call(address: nat, ok: bool, count: nat)

  predicate Free(mem: Memory, at: nat, n: nat) { at != 0 && at + n <= TOP && forall a :: at <= a < at + n ==> a !in mem }

  /** The bytes that a write of `n` bytes to mapped memory writes. */
  function Count(c: Call, n: nat): nat { if c.count <= n then c.count else 0 }

  predicate Full(c: Call, n: nat) { c.ok && c.count == n }

  /** How many of the writes, of these lengths, are complete before the first that is not. */
  function Stages(script: nat -> Call, from: nat, lengths: seq<nat>): (n: nat)
    ensures n <= |lengths|
    decreases |lengths|
  {
    if lengths != [] && Full(script(from), lengths[0]) then 1 + Stages(script, from + 1, lengths[1..]) else 0
  }

  class Process {
    const script: nat -> Call
    var calls: nat
    var mem: Memory
    ghost var failed: bool  // some call has failed

    constructor (script: nat -> Call, mem: Memory)
      ensures this.script == script && this.mem == mem && calls == 0 && !failed
    {
      this.script, this.mem, calls, failed := script, mem, 0, false;
    }

    /** New memory where none was, or failure. */
    method VirtualAllocEx(size: nat) returns (p: nat)
      modifies this
      ensures calls == old(calls) + 1 && failed == (old(failed) || p == 0)
      ensures p == if Free(old(mem), script(old(calls)).address, size) then script(old(calls)).address else 0
      ensures p == 0 ==> mem == old(mem)
      ensures p != 0 ==> mem.Keys == old(mem).Keys + Addresses(p, size)
      ensures forall a :: a in old(mem) ==> a in mem && mem[a] == old(mem)[a]
    {
      p := script(calls).address;
      calls := calls + 1;
      if Free(mem, p, size) {
        mem := mem + map a | a in Addresses(p, size) :: 0;
      } else {
        p := 0;
        failed := true;
      }
    }

    /** Writes some of the bytes, from the first on; only mapped addresses can be written. */
    method WriteProcessMemory(at: nat, data: seq<byte>) returns (ok: bool, written: nat)
      modifies this
      ensures calls == old(calls) + 1 && ok == script(old(calls)).ok
      ensures written <= |data| && mem.Keys == old(mem).Keys
      ensures Mapped(old(mem), at, |data|) ==> written == Count(script(old(calls)), |data|)
      ensures failed == (old(failed) || !ok || written < |data|)
      ensures Holds(mem, at, data[..written]) && UnchangedOutside(old(mem), mem, at, at + written)
    {
      var n := Count(script(calls), |data|);
      ok := script(calls).ok;
      calls := calls + 1;
      written := if forall a :: at <= a < at + n ==> a in mem then n else 0;
      mem := Overwrite(mem, at, data[..written]);
      failed := failed || !ok || written < |data|;
    }
  }

  // ---- Code ----

  /** JmpFar: PUSH imm32, RET. */
  function Jump(to: nat): (b: seq<byte>)
    ensures |b| == JMP_SIZE
  {
    [0x68] + Le32(to) + [0xc3]
  }

  /** PUSH with the target's bits lowest first, as the processor reads them, and RET. */
  lemma JumpBytes(to: nat)
    ensures Jump(to)[0] == 0x68 && Jump(to)[5] == 0xc3 && BitStream(Jump(to)[1..5]) == LowBits(to, 32)
  {
    hide LowBits, BitStream, Le32;
    Le32IsLowestFirst(to);
    assert Jump(to)[1..5] == Le32(to);
  }

  lemma JumpExample()
    ensures Jump(0x00401004) == [0x68, 0x04, 0x10, 0x40, 0x00, 0xc3]
  {
  }

  function Nops(n: nat): (b: seq<byte>)
    ensures |b| == n
  {
    seq(n, _ => 0x90)
  }

  /** What lies in the new memory: the callee's address, the worker behind it, the displaced instructions, and the
      jump back. */
  function Trampoline(worker: seq<byte>, ioFn: nat, code: seq<byte>, lenTotal: nat, site: nat): seq<byte>
    requires |worker| >= 4 && 1 <= lenTotal <= |code|
  {
    Le32(ioFn) + worker[4..] + code[1..lenTotal] + Jump(site + lenTotal)
  }

  /** What replaces the port access and the displaced instructions. */
  function PatchedSite(base: nat, lenTotal: nat): seq<byte>
    requires lenTotal >= JMP_SIZE
  {
    Jump(base + 4) + Nops(lenTotal - JMP_SIZE)
  }

  /** What was mapped before lies outside the new memory. */
  lemma Apart(mem: Memory, site: nat, code: seq<byte>, base: nat, n: nat)
    requires Holds(mem, site, code) && Unmapped(mem, base, n) && code != [] && n > 0
    ensures site + |code| <= base || base + n <= site
  {
    var a := if site < base then base else site;
    assert a < site + |code| && a < base + n ==> a in mem && a !in mem;
  }

  /** The patch is complete: the new memory holds the trampoline and nothing else, the site jumps to it. */
  ghost predicate Patched(before: Memory, now: Memory, worker: seq<byte>, ioFn: nat, code: seq<byte>, site: nat,
                          base: nat, lenTotal: nat)
    requires |worker| >= 4 && JMP_SIZE <= lenTotal <= |code|
  {
    var t := Trampoline(worker, ioFn, code, lenTotal, site);
    && Unmapped(before, base, |t|) && now.Keys == before.Keys + Addresses(base, |t|)
    && Holds(now, base, t)
    && Holds(now, site, PatchedSite(base, lenTotal))
    && UnchangedOutside(before, now, site, site + lenTotal)
  }

  /** The site: PUSH, the address of the worker's first instruction, RET, and NOPs. */
  lemma SiteBytes(base: nat, lenTotal: nat)
    requires lenTotal >= 6
    ensures var p := PatchedSite(base, lenTotal);
            && |p| == lenTotal && p[0] == 0x68 && p[5] == 0xc3 && BitStream(p[1..5]) == LowBits(base + 4, 32)
            && forall k :: 6 <= k < lenTotal ==> p[k] == 0x90
  {
    hide LowBits, BitStream, Le32;
    JumpBytes(base + 4);
    assert PatchedSite(base, lenTotal)[1..5] == Jump(base + 4)[1..5];
  }

  lemma PatchBytes(base: nat, lenTotal: nat, left: seq<byte>)
    requires lenTotal >= JMP_SIZE
    ensures (Jump(base + 4) + (Nops(lenTotal) + left)[JMP_SIZE..])[..lenTotal] == PatchedSite(base, lenTotal)
  {
    assert Nops(lenTotal)[JMP_SIZE..] == Nops(lenTotal - JMP_SIZE);
    assert (Nops(lenTotal) + left)[JMP_SIZE..] == Nops(lenTotal - JMP_SIZE) + left;
  }

  /** memset(buf, 0x90, n) */
  method FillNops(buf: array<byte>, n: nat)
    requires n <= buf.Length
    modifies buf
    ensures buf[..] == Nops(n) + old(buf[n..])
  {
    var i := 0;
    while i < n
      invariant i <= n && forall k :: 0 <= k < buf.Length ==> buf[k] == if k < i then 0x90 else old(buf[k])
    {
      buf[i] := 0x90;
      i := i + 1;
    }
  }

  /** Writing through `jumpToWorker`. */
  method SetJump(buf: array<byte>, to: nat)
    requires buf.Length >= JMP_SIZE
    modifies buf
    ensures buf[..] == Jump(to) + old(buf[JMP_SIZE..])
  {
    var a := Le32(to);
    buf[0], buf[1], buf[2], buf[3], buf[4], buf[5] := 0x68, a[0], a[1], a[2], a[3], 0xc3;
  }

  /** The first three writes. */
  method CopyWorker(process: Process, base: nat, worker: seq<byte>, ioFn: nat, displaced: seq<byte>)
    returns (stage: nat)
    requires |worker| >= 4 && displaced != [] && Mapped(process.mem, base, |worker| + |displaced|)
    modifies process
    ensures stage == Stages(process.script, old(process.calls), [|worker|, 4, |displaced|])
    ensures stage == 3 ==> process.calls == old(process.calls) + 3
    ensures process.mem.Keys == old(process.mem).Keys && process.failed == (old(process.failed) || stage < 3)
    ensures UnchangedOutside(old(process.mem), process.mem, base, base + |worker| + |displaced|)
    ensures stage == 3 ==> Holds(process.mem, base, Le32(ioFn) + worker[4..] + displaced)
  {
    hide Holds, Stages, Jump, Le32;
    ghost var script, from := process.script, process.calls;
    StagesOfThree(script, from, |worker|, 4, |displaced|);
    stage := 0;
    var done, written := process.WriteProcessMemory(base, worker);
    if !done || written != |worker| {
      return;
    }
    assert worker[..written] == worker;
    HoldsPart(process.mem, base, worker, 4);
    stage := 1;
    ghost var m1 := process.mem;
    done, written := process.WriteProcessMemory(base, Le32(ioFn));
    if !done || written != 4 {
      return;
    }
    assert Le32(ioFn)[..written] == Le32(ioFn);
    StillHolds(m1, process.mem, base, base + 4, base + 4, worker[4..]);
    HoldsBoth(process.mem, base, Le32(ioFn), worker[4..]);
    stage := 2;
    ghost var m2 := process.mem;
    done, written := process.WriteProcessMemory(base + |worker|, displaced);
    if !done || written != |displaced| {
      return;
    }
    assert displaced[..written] == displaced;
    StillHolds(m2, process.mem, base + |worker|, base + |worker| + written, base, Le32(ioFn) + worker[4..]);
    HoldsBoth(process.mem, base, Le32(ioFn) + worker[4..], displaced);
    stage := 3;
  }

  lemma StagesOfThree(script: nat -> Call, from: nat, a: nat, b: nat, c: nat)
    ensures Stages(script, from, [a, b, c]) ==
            if !Full(script(from), a) then 0
            else if !Full(script(from + 1), b) then 1
            else if !Full(script(from + 2), c) then 2 else 3
  {
    hide Full;
    assert [a, b, c][1..] == [b, c] && [b, c][1..] == [c] && [c][1..] == [];
    assert [a, b, c][0] == a && [b, c][0] == b && [c][0] == c;
    assert Stages(script, from + 1, [b, c]) == if Full(script(from + 1), b) then 1 + Stages(script, from + 2, [c]) else 0;
    assert Stages(script, from + 3, []) == 0;
    assert Stages(script, from + 2, [c]) == if Full(script(from + 2), c) then 1 else 0;
  }

  lemma StagesOfTwo(script: nat -> Call, from: nat, a: nat, b: nat)
    ensures Stages(script, from, [a, b]) ==
            if !Full(script(from), a) then 0 else if !Full(script(from + 1), b) then 1 else 2
  {
    hide Full;
    assert [a, b][1..] == [b] && [b][1..] == [];
    assert Stages(script, from + 2, []) == 0;
  }

  /** First the one, then the other. */
  lemma {:induction false} StagesBoth(script: nat -> Call, from: nat, a: seq<nat>, b: seq<nat>)
    ensures var n := Stages(script, from, a);
            Stages(script, from, a + b) == if n < |a| then n else n + Stages(script, from + |a|, b)
    decreases |a|
  {
    hide Full;
    if a == [] {
      assert a + b == b;
    } else {
      assert (a + b)[1..] == a[1..] + b;
      StagesBoth(script, from + 1, a[1..], b);
    }
  }

  /** The last two writes: the jump at the site, of which `siteBytes` bytes arrive, and the jump back. `start` is what
      the new memory holds so far. */
  method RedirectSite(process: Process, instBuf: array<byte>, site: nat, lenTotal: nat, base: nat, backAt: nat,
                      ghost start: seq<byte>)
    returns (stage: nat, ghost siteBytes: nat)
    requires JMP_SIZE <= lenTotal <= instBuf.Length && backAt == base + |start| && Holds(process.mem, base, start)
    requires site + lenTotal <= base || backAt + JMP_SIZE <= site
    requires Mapped(process.mem, site, lenTotal) && Mapped(process.mem, backAt, JMP_SIZE)
    modifies process, instBuf
    ensures stage == 3 + Stages(process.script, old(process.calls), [lenTotal, JMP_SIZE])
    ensures siteBytes == Count(process.script(old(process.calls)), lenTotal)
    ensures process.mem.Keys == old(process.mem).Keys && process.failed == (old(process.failed) || stage < 5)
    ensures forall a :: a in old(process.mem) && !(site <= a < site + siteBytes) && !(backAt <= a < backAt + JMP_SIZE) ==>
              process.mem[a] == old(process.mem)[a]
    ensures siteBytes <= lenTotal && Holds(process.mem, site, PatchedSite(base, lenTotal)[..siteBytes])
    ensures stage == 5 ==> Holds(process.mem, base, start + Jump(site + lenTotal))
  {
    hide Holds, Jump, Nops;
    StagesOfTwo(process.script, process.calls, lenTotal, JMP_SIZE);
    stage := 3;
    ghost var left := instBuf[lenTotal..];
    FillNops(instBuf, lenTotal);
    SetJump(instBuf, base + 4);
    PatchBytes(base, lenTotal, left);
    ghost var m3, patch := process.mem, PatchedSite(base, lenTotal);
    assert instBuf[..lenTotal] == patch;
    var done, written := process.WriteProcessMemory(site, instBuf[..lenTotal]);
    StillHolds(m3, process.mem, site, site + written, base, start);
    siteBytes := written;
    if !done || written != lenTotal {
      return;
    }
    stage := 4;
    SetJump(instBuf, site + lenTotal);
    ghost var m4, jump := process.mem, Jump(site + lenTotal);
    assert instBuf[..JMP_SIZE] == jump;
    done, written := process.WriteProcessMemory(backAt, instBuf[..JMP_SIZE]);
    StillHolds(m4, process.mem, backAt, backAt + written, site, patch[..siteBytes]);
    StillHolds(m4, process.mem, backAt, backAt + written, base, start);
    if !done || written != JMP_SIZE {
      return;
    }
    assert jump[..written] == jump;
    HoldsBoth(process.mem, base, start, jump);
    stage := 5;
  }

  /** The lengths of the five writes. */
  function Lengths(worker: nat, lenTotal: nat): seq<nat>
    requires lenTotal >= 1
  {
    [worker, 4, lenTotal - 1] + [lenTotal, JMP_SIZE]
  }

  /** The five writes. */
  method Install(process: Process, instBuf: array<byte>, site: nat, worker: seq<byte>, ioFn: nat, base: nat,
                 lenTotal: nat, ghost before: Memory)
    returns (stage: nat, ghost siteBytes: nat)
    requires |worker| >= 4 && JMP_SIZE <= lenTotal <= instBuf.Length && Holds(before, site, instBuf[..])
    requires var n := |worker| + lenTotal - 1 + JMP_SIZE;
             && Unmapped(before, base, n) && process.mem.Keys == before.Keys + Addresses(base, n)
             && UnchangedOutside(before, process.mem, 0, 0)
    modifies process, instBuf
    ensures stage == Stages(process.script, old(process.calls), Lengths(|worker|, lenTotal))
    ensures siteBytes == if stage < 3 then 0 else Count(process.script(old(process.calls) + 3), lenTotal)
    ensures process.failed == (old(process.failed) || stage < 5)
    ensures siteBytes <= lenTotal && UnchangedOutside(before, process.mem, site, site + siteBytes)
    ensures siteBytes > 0 ==> Holds(process.mem, site, PatchedSite(base, lenTotal)[..siteBytes])
    ensures stage == 5 ==> Patched(before, process.mem, worker, ioFn, old(instBuf[..]), site, base, lenTotal)
  {
    hide Holds, Stages, Count, Jump, Nops, Le32;
    ghost var code, n, m0 := instBuf[..], |worker| + lenTotal - 1 + JMP_SIZE, process.mem;
    StagesBoth(process.script, process.calls, [|worker|, 4, lenTotal - 1], [lenTotal, JMP_SIZE]);
    SiteMapped(before, site, code);
    Apart(before, site, code, base, n);
    siteBytes := 0;
    stage := CopyWorker(process, base, worker, ioFn, instBuf[1..lenTotal]);
    Elsewhere(before, m0, process.mem, base, n, site, site);
    if stage < 3 || lenTotal > instBuf.Length {
      return;
    }
    ghost var m3 := process.mem;
    stage, siteBytes := RedirectSite(process, instBuf, site, lenTotal, base, base + (lenTotal - 1) + |worker|,
                                     Le32(ioFn) + worker[4..] + code[1..lenTotal]);
    Elsewhere(before, m3, process.mem, base, n, site, site + siteBytes);
    AllOfSite(process.script, old(process.calls) + 3, lenTotal, PatchedSite(base, lenTotal));
  }

  /** What was mapped before is not in the new memory. */
  lemma Elsewhere(before: Memory, mid: Memory, now: Memory, base: nat, n: nat, from: nat, to: nat)
    requires UnchangedOutside(before, mid, from, from) && Unmapped(before, base, n) && mid.Keys == now.Keys
    requires forall a :: a in mid && !(from <= a < to) && !(base <= a < base + n) ==> now[a] == mid[a]
    ensures UnchangedOutside(before, now, from, to)
  {
  }

  /** If both writes are complete the whole site is new. */
  lemma AllOfSite(script: nat -> Call, from: nat, n: nat, patch: seq<byte>)
    requires |patch| == n
    ensures Stages(script, from, [n, JMP_SIZE]) == 2 ==> Count(script(from), n) == n
    ensures patch[..n] == patch
  {
    StagesOfTwo(script, from, n, JMP_SIZE);
  }

  /** `stage` counts the completed writes: worker, callee address, displaced code, site, jump back. A failure is not
      undone: the first `siteBytes` bytes of the new code at the site stay, and the program is as before if and only if
      they are the bytes that stood there. */
  method PatchIoInstruction(process: Process, instBuf: array<byte>, ioSizeBits: nat, instructionSize: nat, site: nat,
                            worker: seq<byte>, ioFn: nat)
    returns (ok: bool, base: nat, lenTotal: nat, stage: nat, ghost siteBytes: nat)
    requires instBuf.Length >= 16 && |worker| >= 4 && Holds(process.mem, site, instBuf[..]) && !process.failed
    modifies process, instBuf
    ensures var found := ioSizeBits == 8 && instructionSize == 1 && WithinBudget(old(instBuf[..]));
            && (found <==> lenTotal != 0)
            && (found ==> JMP_SIZE <= lenTotal <= 16 && Boundary(old(instBuf[..]), lenTotal))
            && (found ==> forall p :: JMP_SIZE <= p < lenTotal ==> !Boundary(old(instBuf[..]), p))
    ensures lenTotal == 0 ==> base == 0
    ensures lenTotal != 0 ==>
              var call := process.script(old(process.calls)); var size := lenTotal - 1 + JMP_SIZE + |worker|;
              base == if Free(old(process.mem), call.address, size) then call.address else 0
    ensures stage == if base == 0 then 0
                     else Stages(process.script, old(process.calls) + 1, Lengths(|worker|, lenTotal))
    ensures siteBytes == if stage < 3 then 0 else Count(process.script(old(process.calls) + 4), lenTotal)
    ensures ok <==> stage == 5
    ensures ok ==> Patched(old(process.mem), process.mem, worker, ioFn, old(instBuf[..]), site, base, lenTotal)
    ensures siteBytes <= lenTotal && UnchangedOutside(old(process.mem), process.mem, site, site + siteBytes)
    ensures siteBytes > 0 ==> Holds(process.mem, site, PatchedSite(base, lenTotal)[..siteBytes])
    ensures Intact(old(process.mem), process.mem)
            <==> siteBytes == 0 || PatchedSite(base, lenTotal)[..siteBytes] == old(instBuf[..])[..siteBytes]
    ensures !ok <==> ioSizeBits != 8 || instructionSize != 1 || !WithinBudget(old(instBuf[..])) || process.failed
  {
    hide Holds, WithinBudget, Boundary, Stages, Count, Jump, Nops;
    ok, base, lenTotal, stage, siteBytes := false, 0, 0, 0, 0;
    if ioSizeBits != 8 || instructionSize != 1 {
      return;
    }
    ghost var code, before := instBuf[..], process.mem;
    var found;
    found, lenTotal := FindBoundary(instBuf[..]);
    if !found {
      return false, 0, 0, 0, 0;
    }
    base := process.VirtualAllocEx(lenTotal - instructionSize + JMP_SIZE + |worker|);
    if base == 0 {
      return;
    }
    stage, siteBytes := Install(process, instBuf, site, worker, ioFn, base, lenTotal, before);
    ok := stage == 5;
    IntactExactly(before, process.mem, site, code, PatchedSite(base, lenTotal), siteBytes);
  }

  lemma SiteMapped(mem: Memory, site: nat, code: seq<byte>)
    requires Holds(mem, site, code)
    ensures Mapped(mem, site, |code|)
  {
  }

  /** All memory of the program is as before. */
  ghost predicate Intact(before: Memory, now: Memory) { UnchangedOutside(before, now, 0, 0) }

  lemma IntactExactly(before: Memory, now: Memory, site: nat, code: seq<byte>, patch: seq<byte>, n: nat)
    requires Holds(before, site, code) && n <= |code| && n <= |patch|
    requires UnchangedOutside(before, now, site, site + n) && Holds(now, site, patch[..n])
    ensures Intact(before, now) <==> n == 0 || patch[..n] == code[..n]
  {
    if Intact(before, now) {
      forall k | 0 <= k < n ensures patch[..n][k] == code[..n][k] {
        assert now[site + k] == before[site + k];
      }
    }
    if patch[..n] == code[..n] {
      forall a | a in before && site <= a < site + n ensures now[a] == before[a] {
        assert patch[..n][a - site] == code[..n][a - site];
      }
    }
  }

  // ---- A patch that fails half-way ----

  /** A port instruction is not a PUSH: with the first byte at the site the program has changed. */
  lemma PatchChangesOpcode(base: nat, lenTotal: nat, code: seq<byte>, n: nat)
    requires JMP_SIZE <= lenTotal <= |code| && 0 < n <= lenTotal && code[0] != 0x68
    ensures PatchedSite(base, lenTotal)[..n] != code[..n]
  {
    assert PatchedSite(base, lenTotal)[..n][0] == 0x68;
    assert code[..n][0] == code[0];
  }

  /** Room for new memory, four complete writes, and a fifth that fails. */
  function FifthWriteFails(base: nat, worker: nat, lenTotal: nat): nat -> Call
    requires lenTotal >= 1
  {
    k => if k == 0 then Call(base, true, 0)
         else if k == 1 then Call(0, true, worker)
         else if k == 2 then Call(0, true, 4)
         else if k == 3 then Call(0, true, lenTotal - 1)
         else if k == 4 then Call(0, true, lenTotal)
         else Call(0, false, 0)
  }

  lemma FourStages(base: nat, worker: nat, lenTotal: nat)
    requires lenTotal >= 1
    ensures Stages(FifthWriteFails(base, worker, lenTotal), 1, Lengths(worker, lenTotal)) == 4
  {
    var script := FifthWriteFails(base, worker, lenTotal);
    StagesOfThree(script, 1, worker, 4, lenTotal - 1);
    StagesOfTwo(script, 4, lenTotal, JMP_SIZE);
    StagesBoth(script, 1, [worker, 4, lenTotal - 1], [lenTotal, JMP_SIZE]);
  }

  /** Every program that can be patched can be left half patched: the site jumps to the new memory, from which no jump
      leads back. */
  method LastWriteFails(instBuf: array<byte>, mem: Memory, site: nat, worker: seq<byte>, ioFn: nat, base: nat)
    returns (process: Process, ghost lenTotal: nat)
    requires instBuf.Length >= 16 && |worker| >= 4 && Holds(mem, site, instBuf[..]) && WithinBudget(instBuf[..])
    requires instBuf[0] != 0x68 && Free(mem, base, 16 + JMP_SIZE + |worker|)
    modifies instBuf
    ensures fresh(process) && process.failed && JMP_SIZE <= lenTotal <= 16
    ensures Holds(process.mem, site, PatchedSite(base, lenTotal)) && !Intact(mem, process.mem)
  {
    hide Holds, WithinBudget, Boundary, Stages, Jump, Nops, Lengths;
    ghost var code := instBuf[..];
    var found, len := FindBoundary(instBuf[..]);
    process := new Process(FifthWriteFails(base, |worker|, len), mem);
    var ok, at, n, stage, siteBytes := PatchIoInstruction(process, instBuf, 8, 1, site, worker, ioFn);
    FourStages(base, |worker|, len);
    lenTotal := n;
    PatchChangesOpcode(base, len, code, len);
    assert PatchedSite(base, len)[..len] == PatchedSite(base, len);
  }
}
