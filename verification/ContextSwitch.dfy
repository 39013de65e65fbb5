/** The x86_64 context switch: job_exec_switch instruction by instruction, and the frame
    job_exec_init builds by hand for a job that never ran. */
module ContextSwitch {
  import opened Words

  // General registers, in the order of their places in a saved frame.
  const R15 := 0
  const R14 := 1
  const R13 := 2
  const R12 := 3
  const R11 := 4
  const R10 := 5
  const R9 := 6
  const R8 := 7
  const RDI := 8
  const RSI := 9
  const RBP := 10
  const RBX := 11
  const RDX := 12
  const RCX := 13
  const RAX := 14
  const REGS := 15

  const CODE_SELECTOR: u64 := 0x08
  const DATA_SELECTOR: u64 := 0x10
  const INITIAL_RFLAGS: u64 := 0x202
  const IF_BIT := 0x200

  /** Everything that makes up a job's place in its own code. */
  datatype Context = Context(regs: seq<u64>, rip: u64, cs: u64, flags: u64, rsp: u64, ss: u64)

  predicate Whole(c: Context) { |c.regs| == REGS }

  /** The 20 words of a saved frame. */
  function Frame(c: Context): (r: seq<u64>)
    requires Whole(c)
    ensures |r| == 20
  {
    c.regs + [c.rip, c.cs, c.flags, c.rsp, c.ss]
  }

  function FromFrame(f: seq<u64>): (r: Context)
    requires |f| == 20
    ensures Whole(r)
  {
    Context(f[..REGS], f[15], f[16], f[17], f[18], f[19])
  }

  lemma FrameRoundTrip(c: Context)
    requires Whole(c)
    ensures FromFrame(Frame(c)) == c
  {
    assert Frame(c)[..REGS] == c.regs;
  }

  // Memory is a sequence of 64-bit words; addresses are bytes.

  predicate Room(mem: seq<u64>, a: int, n: nat) { 0 <= a && a % 8 == 0 && a / 8 + n <= |mem| }

  function Slice(mem: seq<u64>, a: int, n: nat): (r: seq<u64>)
    requires Room(mem, a, n)
    ensures |r| == n
  {
    mem[a / 8..a / 8 + n]
  }

  function Put(mem: seq<u64>, a: int, ws: seq<u64>): (r: seq<u64>)
    requires Room(mem, a, |ws|)
    ensures |r| == |mem|
  {
    mem[..a / 8] + ws + mem[a / 8 + |ws|..]
  }

  /** What a job that calls the switch with this stack pointer is to come back to: its
      registers, its return address, its flags, its stack after the return. */
  function Parked(c: Context, mem: seq<u64>): (r: Context)
    requires Whole(c) && Room(mem, c.rsp, 1) && c.rsp + 8 < TWO64
    ensures Whole(r)
  {
    Context(c.regs, mem[c.rsp / 8], CODE_SELECTOR, c.flags, c.rsp + 8, DATA_SELECTOR)
  }

  /** The caller's stack has room for the frame, and the two arguments are word addresses. */
  predicate CanSwitch(c: Context, mem: seq<u64>) {
    && Whole(c) && c.rsp >= 168 && Room(mem, c.rsp, 1) && c.rsp + 8 < TWO64
    && Room(mem, c.regs[RDI], 1) && Room(mem, c.regs[RSI], 20) && c.regs[RSI] + 160 < TWO64
  }

  /** Memory after the save: frame, pushed flags, and the frame's address where rdi points. */
  function SavedMemory(c: Context, mem: seq<u64>): (r: seq<u64>)
    requires CanSwitch(c, mem)
    ensures |r| == |mem|
  {
    Put(mem, c.rsp - 168, Frame(Parked(c, mem)) + [c.flags])[c.regs[RDI] / 8 := c.rsp - 168]
  }

  function Resumed(c: Context, mem: seq<u64>): (r: Context)
    requires CanSwitch(c, mem)
    ensures Whole(r)
  {
    FromFrame(Slice(SavedMemory(c, mem), c.regs[RSI], 20))
  }

  function WithoutInterrupts(flags: u64): (r: u64)
    ensures r / IF_BIT % 2 == 0
  {
    if flags / IF_BIT % 2 == 1 then flags - IF_BIT else flags
  }

  class Machine {
    const regs: array<u64>
    const mem: array<u64>
    var rip: u64
    var cs: u64
    var flags: u64
    var rsp: u64
    var ss: u64

    ghost predicate Valid()
      reads this
    {
      regs != mem && regs.Length == REGS
    }

    ghost function Value(): Context
      reads this, regs
    {
      Context(regs[..], rip, cs, flags, rsp, ss)
    }

    constructor (c: Context, words: seq<u64>)
      requires Whole(c)
      ensures Valid() && Value() == c && mem[..] == words && fresh(regs) && fresh(mem)
    {
      regs := new u64[REGS](i requires 0 <= i < REGS => c.regs[i]);
      mem := new u64[|words|](i requires 0 <= i < |words| => words[i]);
      rip, cs, flags, rsp, ss := c.rip, c.cs, c.flags, c.rsp, c.ss;
    }

    /** A frame under construction: the first n words of f are in place at base. */
    ghost predicate Filled(before: seq<u64>, base: int, f: seq<u64>, n: nat)
      reads this, mem
    {
      Valid() && n <= |f| && Room(before, base, |f|) && mem[..] == Put(before, base, f[..n])
    }

    /** movq v, off(base), as the next word of the frame. */
    method Fill(base: u64, off: nat, v: u64, ghost before: seq<u64>, ghost f: seq<u64>)
      requires off % 8 == 0 && off / 8 < |f| && f[off / 8] == v && Filled(before, base, f, off / 8)
      modifies mem
      ensures Filled(before, base, f, off / 8 + 1)
    {
      mem[(base + off) / 8] := v;
      assert f[..off / 8 + 1] == f[..off / 8] + [v];
    }

    /** The fifteen register stores, in two halves. */
    method StoreUpper(ghost before: seq<u64>, ghost f: seq<u64>)
      requires |f| == 20 && Filled(before, rsp, f, 0) && f[..REGS] == regs[..]
      modifies mem
      ensures Filled(before, rsp, f, 8)
    {
      Fill(rsp, 0, regs[R15], before, f);
      Fill(rsp, 8, regs[R14], before, f);
      Fill(rsp, 16, regs[R13], before, f);
      Fill(rsp, 24, regs[R12], before, f);
      Fill(rsp, 32, regs[R11], before, f);
      Fill(rsp, 40, regs[R10], before, f);
      Fill(rsp, 48, regs[R9], before, f);
      Fill(rsp, 56, regs[R8], before, f);
    }

    method StoreLower(ghost before: seq<u64>, ghost f: seq<u64>)
      requires |f| == 20 && Filled(before, rsp, f, 8) && f[..REGS] == regs[..]
      modifies mem
      ensures Filled(before, rsp, f, REGS)
    {
      Fill(rsp, 64, regs[RDI], before, f);
      Fill(rsp, 72, regs[RSI], before, f);
      Fill(rsp, 80, regs[RBP], before, f);
      Fill(rsp, 88, regs[RBX], before, f);
      Fill(rsp, 96, regs[RDX], before, f);
      Fill(rsp, 104, regs[RCX], before, f);
      Fill(rsp, 112, regs[RAX], before, f);
    }

    /** The return half of the frame, built through rax: rip, cs, flags, rsp, ss. */
    method StoreReturn(ghost before: seq<u64>, ghost f: seq<u64>)
      requires |f| == 20 && Filled(before, rsp, f, REGS) && Room(before, rsp, 22) && rsp + 176 < TWO64
      requires f[15..] == [before[rsp / 8 + 21], CODE_SELECTOR, before[rsp / 8 + 20], rsp + 176, DATA_SELECTOR]
      modifies mem, regs
      ensures Valid() && regs[..] == old(regs[..])[RAX := rsp + 176] && mem[..] == Put(before, rsp, f)
    {
      assert f[15] == f[15..][0] && f[16] == f[15..][1] && f[17] == f[15..][2] && f[18] == f[15..][3]
             && f[19] == f[15..][4];
      regs[RAX] := mem[(rsp + 168) / 8];
      Fill(rsp, 120, regs[RAX], before, f);
      Fill(rsp, 128, CODE_SELECTOR, before, f);
      regs[RAX] := mem[(rsp + 160) / 8];
      Fill(rsp, 136, regs[RAX], before, f);
      regs[RAX] := rsp + 176;
      Fill(rsp, 144, regs[RAX], before, f);
      Fill(rsp, 152, DATA_SELECTOR, before, f);
      assert f[..20] == f;
    }

    method StoreFrame(ghost before: seq<u64>, ghost f: seq<u64>)
      requires Valid() && mem[..] == before && |f| == 20 && Room(before, rsp, 22) && rsp + 176 < TWO64
      requires f[..REGS] == regs[..]
      requires f[15..] == [before[rsp / 8 + 21], CODE_SELECTOR, before[rsp / 8 + 20], rsp + 176, DATA_SELECTOR]
      modifies mem, regs
      ensures Valid() && regs[..] == old(regs[..])[RAX := rsp + 176] && mem[..] == Put(before, rsp, f)
    {
      assert Filled(before, rsp, f, 0);
      StoreUpper(before, f);
      StoreLower(before, f);
      StoreReturn(before, f);
    }

    /** The frame, from the stack pointer up, behind the pushed flags. */
    method BuildFrame(ghost c: Context, ghost m: seq<u64>)
      requires Valid() && CanSwitch(c, m) && regs[..] == c.regs && rsp == c.rsp - 168
      requires mem[..] == m[c.rsp / 8 - 1 := c.flags]
      modifies mem, regs
      ensures Valid() && regs[..] == c.regs[RAX := rsp + 176]
      ensures mem[..] == Put(m, rsp, Frame(Parked(c, m)) + [c.flags])
    {
      ghost var before, f := mem[..], Frame(Parked(c, m));
      ParkedFrame(c, m, before);
      StoreFrame(before, f);
      PushedFlags(m, rsp, f, c.flags);
    }

    method PushFlags()
      requires Valid() && rsp >= 8 && Room(mem[..], rsp, 1)
      modifies this`rsp, mem
      ensures Valid() && rsp == old(rsp) - 8 && mem[..] == old(mem[..])[old(rsp) / 8 - 1 := flags]
    {
      rsp := rsp - 8;
      mem[rsp / 8] := flags;
    }

    /** movq %rsp, (%rdi). */
    method HandOver(ghost c: Context, ghost m: seq<u64>)
      requires Valid() && CanSwitch(c, m) && regs[RDI] == c.regs[RDI] && rsp == c.rsp - 168
      requires mem[..] == Put(m, rsp, Frame(Parked(c, m)) + [c.flags])
      modifies mem
      ensures Valid() && mem[..] == SavedMemory(c, m)
    {
      mem[regs[RDI] / 8] := rsp;
    }

    /** The save half: push the true flags, disable interrupts, build the frame, hand its
        address over. */
    method Save()
      requires Valid() && CanSwitch(Value(), mem[..])
      modifies this, mem, regs
      ensures Valid() && mem[..] == SavedMemory(old(Value()), old(mem[..]))
      ensures regs[RSI] == old(regs[RSI]) && flags == WithoutInterrupts(old(flags))
    {
      ghost var c, m := Value(), mem[..];
      PushFlags();
      flags := WithoutInterrupts(flags);
      rsp := rsp - 160;
      BuildFrame(c, m);
      HandOver(c, m);
    }

    /** popq: the next register of the frame at base. */
    ghost predicate Popped(m: seq<u64>, base: int, n: nat)
      reads this, regs, mem
    {
      && Valid() && mem[..] == m && n <= REGS && Room(m, base, 20) && base + 160 < TWO64
      && rsp == base + 8 * n && regs[..n] == Slice(m, base, n)
    }

    method Pop(reg: nat, ghost m: seq<u64>, ghost base: int)
      requires reg < REGS && Popped(m, base, reg)
      modifies this`rsp, regs
      ensures Popped(m, base, reg + 1)
    {
      ghost var had := regs[..reg];
      regs[reg] := mem[rsp / 8];
      rsp := rsp + 8;
      assert regs[..reg] == had;
      assert regs[..reg + 1] == regs[..reg] + [regs[reg]];
    }

    method PopUpper(ghost m: seq<u64>, ghost base: int)
      requires Popped(m, base, 0)
      modifies this`rsp, regs
      ensures Popped(m, base, 8)
    {
      Pop(R15, m, base);
      Pop(R14, m, base);
      Pop(R13, m, base);
      Pop(R12, m, base);
      Pop(R11, m, base);
      Pop(R10, m, base);
      Pop(R9, m, base);
      Pop(R8, m, base);
    }

    method PopLower(ghost m: seq<u64>, ghost base: int)
      requires Popped(m, base, 8)
      modifies this`rsp, regs
      ensures Popped(m, base, REGS)
    {
      Pop(RDI, m, base);
      Pop(RSI, m, base);
      Pop(RBP, m, base);
      Pop(RBX, m, base);
      Pop(RDX, m, base);
      Pop(RCX, m, base);
      Pop(RAX, m, base);
    }

    /** The restore half: the stack becomes the other job's frame, which iretq consumes. */
    method Restore(from: u64)
      requires Valid() && Room(mem[..], from, 20) && from + 160 < TWO64
      modifies this, regs
      ensures Valid() && Value() == FromFrame(Slice(mem[..], from, 20))
    {
      ghost var m := mem[..];
      rsp := from;
      assert Popped(m, from, 0);
      PopUpper(m, from);
      PopLower(m, from);
      var f := rsp / 8;
      rip, cs, flags, rsp, ss := mem[f], mem[f + 1], mem[f + 2], mem[f + 3], mem[f + 4];
      assert regs[..REGS] == regs[..];
      assert Slice(m, from, 20)[..REGS] == Slice(m, from, REGS);
    }

    /** job_exec_switch. */
    method Switch()
      requires Valid() && CanSwitch(Value(), mem[..])
      modifies this, mem, regs
      ensures Valid() && mem[..] == SavedMemory(old(Value()), old(mem[..]))
      ensures Value() == Resumed(old(Value()), old(mem[..]))
    {
      Save();
      Restore(regs[RSI]);
    }

    /** job_exec_init: a frame below the aligned top that starts the job at its entry. */
    method Init(top: u64, entry: u64, arg: u64) returns (frame: u64)
      requires Valid() && AlignedTop(top) >= 160 && Room(mem[..], AlignedTop(top) - 160, 20)
      modifies mem
      ensures frame == AlignedTop(top) - 160
      ensures mem[..] == Put(old(mem[..]), frame, Frame(Fresh(top, entry, arg)))
    {
      var t := top - top % 16;
      frame := t - 160;
      ghost var before, f := mem[..], Frame(Fresh(top, entry, arg));
      assert Filled(before, frame, f, 0);
      InitUpper(frame, arg, before, f);
      InitLower(frame, before, f);
      assert f[15..] == [entry, CODE_SELECTOR, INITIAL_RFLAGS, t, DATA_SELECTOR];
      InitReturn(frame, entry, t, before, f);
    }

    method InitReturn(frame: u64, entry: u64, top: u64, ghost before: seq<u64>, ghost f: seq<u64>)
      requires |f| == 20 && f[15..] == [entry, CODE_SELECTOR, INITIAL_RFLAGS, top, DATA_SELECTOR]
      requires Filled(before, frame, f, REGS)
      modifies mem
      ensures mem[..] == Put(before, frame, f)
    {
      assert f[15] == f[15..][0] && f[16] == f[15..][1] && f[17] == f[15..][2] && f[18] == f[15..][3]
             && f[19] == f[15..][4];
      Fill(frame, 120, entry, before, f);
      Fill(frame, 128, CODE_SELECTOR, before, f);
      Fill(frame, 136, INITIAL_RFLAGS, before, f);
      Fill(frame, 144, top, before, f);
      Fill(frame, 152, DATA_SELECTOR, before, f);
      assert f[..20] == f;
    }

    method InitUpper(frame: u64, arg: u64, ghost before: seq<u64>, ghost f: seq<u64>)
      requires |f| == 20 && f[..REGS] == ArgumentOnly(arg) && Filled(before, frame, f, 0)
      modifies mem
      ensures Filled(before, frame, f, 9)
    {
      Fill(frame, 0, 0, before, f);
      Fill(frame, 8, 0, before, f);
      Fill(frame, 16, 0, before, f);
      Fill(frame, 24, 0, before, f);
      Fill(frame, 32, 0, before, f);
      Fill(frame, 40, 0, before, f);
      Fill(frame, 48, 0, before, f);
      Fill(frame, 56, 0, before, f);
      Fill(frame, 64, arg, before, f);
    }

    method InitLower(frame: u64, ghost before: seq<u64>, ghost f: seq<u64>)
      requires |f| == 20 && (forall i :: 9 <= i < REGS ==> f[i] == 0) && Filled(before, frame, f, 9)
      modifies mem
      ensures Filled(before, frame, f, REGS)
    {
      Fill(frame, 72, 0, before, f);
      Fill(frame, 80, 0, before, f);
      Fill(frame, 88, 0, before, f);
      Fill(frame, 96, 0, before, f);
      Fill(frame, 104, 0, before, f);
      Fill(frame, 112, 0, before, f);
    }
  }

  function AlignedTop(top: u64): (r: u64)
    ensures r % 16 == 0 && r <= top < r + 16
  {
    top - top % 16
  }

  lemma EightDivides(a: int)
    requires a % 16 == 0
    ensures a % 8 == 0
  {
    assert a == 8 * (2 * (a / 16));
  }

  function ArgumentOnly(arg: u64): (r: seq<u64>)
    ensures |r| == REGS && r[RDI] == arg && forall i :: 0 <= i < REGS && i != RDI ==> r[i] == 0
  {
    [0, 0, 0, 0, 0, 0, 0, 0, arg, 0, 0, 0, 0, 0, 0]
  }

  /** Where a job that never ran begins. */
  function Fresh(top: u64, entry: u64, arg: u64): (r: Context)
    ensures Whole(r) && r.rip == entry && r.regs[RDI] == arg && r.rsp == AlignedTop(top) && r.rsp % 16 == 0
  {
    Context(ArgumentOnly(arg), entry, CODE_SELECTOR, INITIAL_RFLAGS, AlignedTop(top), DATA_SELECTOR)
  }

  /** The frame to build, from the registers and from what lies above it on the stack. */
  lemma ParkedFrame(c: Context, m: seq<u64>, before: seq<u64>)
    requires CanSwitch(c, m) && before == m[c.rsp / 8 - 1 := c.flags]
    ensures var f, a := Frame(Parked(c, m)), c.rsp - 168;
      && Room(before, a, 22) && f[..REGS] == c.regs
      && f[15..] == [before[a / 8 + 21], CODE_SELECTOR, before[a / 8 + 20], a + 176, DATA_SELECTOR]
  {
    assert (c.rsp - 168) / 8 == c.rsp / 8 - 21;
  }

  lemma PushedFlags(m: seq<u64>, a: int, frame: seq<u64>, flags: u64)
    requires Room(m, a, |frame| + 1)
    ensures Put(m[a / 8 + |frame| := flags], a, frame) == Put(m, a, frame + [flags])
  {
  }
}
