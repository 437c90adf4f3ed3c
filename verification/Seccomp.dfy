/**
  The seccomp(2) filter generator of ch-run, a small compiler from system call
  tables to classic BPF with hand-counted jump offsets.

  `Install` is the generator as coded: it counts, allocates the buffer and fills
  it through a running index, aborting where an assertion of the C code fails.
  `Run` is the kernel's interpreter for the instructions used. The main results
  say that the emitted program means what the tables say (`ProgramMeaning`) and
  exactly which tables can be compiled (`FitsExactly`).
 */
module Seccomp {

  // C integer types. Narrowing is explicit wherever the C code narrows.
  type int32 = x: int | -0x8000_0000 <= x < 0x8000_0000
  type uint32 = x: int | 0 <= x < 0x1_0000_0000
  type uint16 = x: int | 0 <= x < 0x1_0000
  type uint8 = x: int | 0 <= x < 0x100

  function ToU32(x: int): uint32 { x % 0x1_0000_0000 }
  function ToU8(x: int): uint8 { x % 0x100 }

  const NR_NON: int32 := -1  // system call does not exist on this architecture
  const NR_END: int32 := -2  // end of table

  /** The four tables. `archs` and `fake` end with an NR_END entry. */
  datatype Tables = Tables(archs: seq<int32>, fake: seq<seq<int32>>, mknod: seq<int32>, mknodat: seq<int32>)
  {
    ghost predicate Valid() {
      && |archs| > 0
      && archs[|archs| - 1] == NR_END
      && (forall ai :: 0 <= ai < |archs| - 1 ==> archs[ai] != NR_END)
      && |fake| > 0
      && (forall si :: 0 <= si < |fake| ==> |fake[si]| > 0 && |fake[si]| >= |archs| - 1)
      && fake[|fake| - 1][0] == NR_END
      && (forall si :: 0 <= si < |fake| - 1 ==> fake[si][0] != NR_END)
      && |mknod| >= |archs| - 1
      && |mknodat| >= |archs| - 1
    }

    ghost function ArchCt(): nat requires Valid() { |archs| - 1 }
    ghost function Rows(): nat requires Valid() { |fake| - 1 }
  }

  // ---------------------------------------------------------------------------
  // Instructions and their meaning

  datatype Insn = Insn(op: uint16, jt: uint8, jf: uint8, k: uint32)

  // What the generator writes; the interpreter has its own numbers.
  const LD_ABS: uint16 := 0x20
  const JEQ: uint16 := 0x15
  const JA: uint16 := 0x05
  const RET: uint16 := 0x06
  const AND: uint16 := 0x54

  const RET_ALLOW: uint32 := 0x7FFF_0000
  const RET_ERRNO: uint32 := 0x0005_0000

  // Offsets into struct seccomp_data.
  const OFF_NR: uint32 := 0
  const OFF_ARCH: uint32 := 4
  const OFF_ARG1: uint32 := 24
  const OFF_ARG2: uint32 := 32

  const S_IFMT: uint32 := 0xF000
  const S_IFCHR: uint32 := 0x2000
  const S_IFBLK: uint32 := 0x6000

  /** struct seccomp_data as the sixteen 32-bit words that BPF can load. */
  type Data = w: seq<uint32> | |w| == 16 witness seq(16, i => 0)

  function Nr(d: Data): uint32 { d[0] }
  function Arch(d: Data): uint32 { d[1] }
  function Arg1(d: Data): uint32 { d[6] }
  function Arg2(d: Data): uint32 { d[8] }

  datatype Option<T> = None | Some(value: T)

  /** Bitwise and. */
  function And(a: nat, b: nat): (r: nat)
    ensures r <= b
  {
    if a == 0 || b == 0 then 0
    else 2 * And(a / 2, b / 2) + (if a % 2 == 1 && b % 2 == 1 then 1 else 0)
  }

  /** The kernel's interpreter, from instruction `pc` with accumulator `acc`.
      None: the program loads out of bounds, uses an unknown instruction or runs
      off its end. Jumps are relative to the next instruction. */
  function Run(prog: seq<Insn>, d: Data, pc: nat, acc: uint32): Option<uint32>
    decreases |prog| - pc
  {
    if pc >= |prog| then None
    else
      var i := prog[pc];
      if i.op == 0x20 then       // BPF_LD|BPF_W|BPF_ABS
        if i.k % 4 == 0 && i.k / 4 < 16 then Run(prog, d, pc + 1, d[i.k / 4]) else None
      else if i.op == 0x15 then  // BPF_JMP|BPF_JEQ|BPF_K
        Run(prog, d, pc + 1 + (if acc == i.k then i.jt else i.jf), acc)
      else if i.op == 0x05 then  // BPF_JMP|BPF_JA
        Run(prog, d, pc + 1 + i.k, acc)
      else if i.op == 0x54 then  // BPF_ALU|BPF_AND|BPF_K
        Run(prog, d, pc + 1, And(acc, i.k))
      else if i.op == 0x06 then  // BPF_RET|BPF_K
        Some(i.k)
      else None
  }

  // ---------------------------------------------------------------------------
  // Layout: where everything goes

  /** Faked system calls of architecture `ai` in the first `si` rows. */
  ghost function Count(t: Tables, ai: nat, si: nat): (n: nat)
    requires t.Valid() && ai < t.ArchCt() && si <= t.Rows()
    ensures n <= si
  {
    if si == 0 then 0 else Count(t, ai, si - 1) + (if t.fake[si - 1][ai] != NR_NON then 1 else 0)
  }

  ghost function N(t: Tables, ai: nat): nat
    requires t.Valid() && ai < t.ArchCt()
  {
    Count(t, ai, t.Rows())
  }

  /** Position of the first instruction of architecture `ai`; equally the total
      size of the blocks before it. */
  ghost function Base(t: Tables, ai: nat): nat
    requires t.Valid() && ai <= t.ArchCt()
  {
    if ai == 0 then 0 else Base(t, ai - 1) + N(t, ai - 1) + 6
  }

  ghost function Allow(t: Tables): nat requires t.Valid() { Base(t, t.ArchCt()) }

  ghost function Length(t: Tables): nat requires t.Valid() { Allow(t) + 10 }

  ghost function EntryPos(t: Tables, ai: nat, si: nat): nat
    requires t.Valid() && ai < t.ArchCt() && si <= t.Rows()
  {
    Base(t, ai) + 3 + Count(t, ai, si)
  }

  // The compiled program, instruction by instruction.

  ghost predicate HeadLaid(p: seq<Insn>, t: Tables, ai: nat)
    requires t.Valid() && ai < t.ArchCt() && Base(t, ai) + N(t, ai) + 6 <= |p|
  {
    var b := Base(t, ai);
    && p[b] == Insn(LD_ABS, 0, 0, OFF_ARCH)
    && p[b + 1] == Insn(JEQ, 0, ToU8(N(t, ai) + 4), ToU32(t.archs[ai]))
    && p[b + 2] == Insn(LD_ABS, 0, 0, OFF_NR)
  }

  ghost predicate EntriesLaid(p: seq<Insn>, t: Tables, ai: nat, si: nat)
    requires t.Valid() && ai < t.ArchCt() && si <= t.Rows()
  {
    forall j {:trigger EntryPos(t, ai, j)} :: 0 <= j < si && t.fake[j][ai] != NR_NON ==>
      var pos := EntryPos(t, ai, j);
      pos < |p| && p[pos] == Insn(JEQ, ToU8(Allow(t) + 1 - pos - 1), 0, ToU32(t.fake[j][ai]))
  }

  ghost predicate FootLaid(p: seq<Insn>, t: Tables, ai: nat)
    requires t.Valid() && ai < t.ArchCt() && Base(t, ai) + N(t, ai) + 6 <= |p|
  {
    var pos := EntryPos(t, ai, t.Rows());
    && p[pos] == Insn(JEQ, ToU8(Allow(t) + 2 - pos - 1), 0, ToU32(t.mknod[ai]))
    && p[pos + 1] == Insn(JEQ, ToU8(Allow(t) + 4 - (pos + 1) - 1), 0, ToU32(t.mknodat[ai]))
    && p[pos + 2] == Insn(JA, 0, 0, ToU32(Allow(t) - (pos + 2) - 1))
  }

  ghost predicate BlockLaid(p: seq<Insn>, t: Tables, ai: nat)
    requires t.Valid() && ai < t.ArchCt()
  {
    && Base(t, ai) + N(t, ai) + 6 <= |p|
    && HeadLaid(p, t, ai)
    && EntriesLaid(p, t, ai, t.Rows())
    && FootLaid(p, t, ai)
  }

  ghost predicate TailLaid(p: seq<Insn>, a: nat) {
    && a + 10 <= |p|
    && p[a] == Insn(RET, 0, 0, RET_ALLOW)
    && p[a + 1] == Insn(RET, 0, 0, RET_ERRNO)
    && p[a + 2] == Insn(LD_ABS, 0, 0, OFF_ARG1)
    && p[a + 3] == Insn(JA, 0, 0, 1)
    && p[a + 4] == Insn(LD_ABS, 0, 0, OFF_ARG2)
    && p[a + 5] == Insn(AND, 0, 0, S_IFMT)
    && p[a + 6] == Insn(JEQ, 2, 0, S_IFCHR)
    && p[a + 7] == Insn(JEQ, 1, 0, S_IFBLK)
    && p[a + 8] == Insn(RET, 0, 0, RET_ALLOW)
    && p[a + 9] == Insn(RET, 0, 0, RET_ERRNO)
  }

  /** `p` is the program compiled from `t`. Every position is determined. */
  ghost predicate Compiled(p: seq<Insn>, t: Tables)
    requires t.Valid()
  {
    && |p| == Length(t)
    && (forall ai :: 0 <= ai < t.ArchCt() ==> BlockLaid(p, t, ai))
    && TailLaid(p, Allow(t))
  }

  /** Every jump of architecture `ai` that the C code checks fits in eight bits. */
  ghost predicate ArchFits(t: Tables, ai: nat)
    requires t.Valid() && ai < t.ArchCt()
  {
    && N(t, ai) + 4 <= 255
    && EntriesFit(t, ai, t.Rows())
    && FootFits(t, ai)
  }

  ghost predicate FootFits(t: Tables, ai: nat)
    requires t.Valid() && ai < t.ArchCt()
  {
    && Allow(t) + 2 - EntryPos(t, ai, t.Rows()) - 1 <= 255
    && Allow(t) + 4 - (EntryPos(t, ai, t.Rows()) + 1) - 1 <= 255
  }

  ghost predicate EntriesFit(t: Tables, ai: nat, si: nat)
    requires t.Valid() && ai < t.ArchCt() && si <= t.Rows()
  {
    forall j {:trigger EntryPos(t, ai, j)} :: 0 <= j < si && t.fake[j][ai] != NR_NON ==> Allow(t) + 1 - EntryPos(t, ai, j) - 1 <= 255
  }

  ghost predicate Fits(t: Tables)
    requires t.Valid()
  {
    forall ai :: 0 <= ai < t.ArchCt() ==> ArchFits(t, ai)
  }

  // ---------------------------------------------------------------------------
  // The generator

  datatype Outcome = Installed | JumpTooFar | Misplaced

  /** Write one instruction; `k`, `jt` and `jf` narrow as the C parameters do. */
  method Iw(filter: array<Insn>, i: nat, op: uint16, k: int, jt: int, jf: int)
    requires i < filter.Length
    modifies filter
    ensures filter[..] == old(filter[..])[i := Insn(op, ToU8(jt), ToU8(jf), ToU32(k))]
  {
    filter[i] := Insn(op, ToU8(jt), ToU8(jf), ToU32(k));
  }

  /** Count the faked system calls of every architecture and the program length.
      The precondition says that the length fits in `unsigned short`. */
  method CountSyscalls(t: Tables) returns (cts: array<nat>, len: nat)
    requires t.Valid() && Length(t) < 0x1_0000
    ensures fresh(cts) && cts.Length == t.ArchCt()
    ensures forall ai :: 0 <= ai < t.ArchCt() ==> cts[ai] == N(t, ai)
    ensures len == Length(t)
  {
    cts := new nat[|t.archs| - 1];
    len := 0;
    var ai := 0;
    while t.archs[ai] != NR_END
      invariant 0 <= ai <= t.ArchCt()
      invariant len == Base(t, ai)
      invariant forall a :: 0 <= a < ai ==> cts[a] == N(t, a)
      decreases t.ArchCt() - ai
    {
      len := len + 4 + 2;
      cts[ai] := 0;
      var si := 0;
      while t.fake[si][0] != NR_END
        invariant 0 <= si <= t.Rows()
        invariant cts[ai] == Count(t, ai, si)
        invariant len == Base(t, ai) + 6 + Count(t, ai, si)
        invariant forall a :: 0 <= a < ai ==> cts[a] == N(t, a)
        decreases t.Rows() - si
      {
        if t.fake[si][ai] != NR_NON {
          cts[ai] := cts[ai] + 1;
          len := len + 1;
        }
        si := si + 1;
      }
      ai := ai + 1;
    }
    len := len + 1 + 1 + 2 + 6;
  }

  /** Emit the jump table of architecture `ai` from index `start`. */
  method EmitJumpTable(t: Tables, ai: nat, filter: array<Insn>, start: nat, idxFake: nat)
      returns (outcome: Outcome, ii: nat)
    requires t.Valid() && ai < t.ArchCt()
    requires start == Base(t, ai) + 3 && start + N(t, ai) <= filter.Length && idxFake == Allow(t) + 1
    modifies filter
    ensures outcome != Misplaced
    ensures outcome.Installed? <==> EntriesFit(t, ai, t.Rows())
    ensures outcome.Installed? ==> ii == start + N(t, ai) && EntriesLaid(filter[..], t, ai, t.Rows())
    ensures SamePrefix(old(filter[..]), filter[..], start)
  {
    ii := start;
    var si := 0;
    while t.fake[si][0] != NR_END
      invariant 0 <= si <= t.Rows()
      invariant ii == EntryPos(t, ai, si) <= filter.Length
      invariant EntriesLaid(filter[..], t, ai, si)
      invariant EntriesFit(t, ai, si)
      invariant SamePrefix(old(filter[..]), filter[..], start)
      decreases t.Rows() - si
    {
      CountMonotone(t, ai, si + 1, t.Rows());
      var nr := t.fake[si][ai];
      ghost var before := filter[..];
      if nr != NR_NON {
        var jump := idxFake - ii - 1;
        if !(jump <= 255) {
          return JumpTooFar, ii;
        }
        Iw(filter, ii, JEQ, nr, jump, 0);
        ii := ii + 1;
        EntriesExtend(before, filter[..], t, ai, si);
      }
      si := si + 1;
    }
    outcome := Installed;
  }

  /** Emit the tests for mknod and mknodat, added even if the call is absent, and
      the jump to "allow", to which the limit of 255 does not apply. */
  method EmitFoot(t: Tables, ai: nat, filter: array<Insn>, start: nat, idxAllow: nat)
      returns (outcome: Outcome, ii: nat)
    requires t.Valid() && ai < t.ArchCt()
    requires start == EntryPos(t, ai, t.Rows()) && idxAllow == Allow(t) && start + 3 <= filter.Length
    modifies filter
    ensures outcome != Misplaced
    ensures outcome.Installed? <==> FootFits(t, ai)
    ensures outcome.Installed? ==> ii == start + 3 && FootLaid(filter[..], t, ai)
    ensures SamePrefix(old(filter[..]), filter[..], start)
  {
    ii := start;
    var jump := idxAllow + 2 - ii - 1;
    if !(jump <= 255) {
      return JumpTooFar, ii;
    }
    Iw(filter, ii, JEQ, t.mknod[ai], jump, 0);  ii := ii + 1;
    jump := idxAllow + 4 - ii - 1;
    if !(jump <= 255) {
      return JumpTooFar, ii;
    }
    Iw(filter, ii, JEQ, t.mknodat[ai], jump, 0);  ii := ii + 1;
    jump := idxAllow - ii - 1;
    Iw(filter, ii, JA, jump, 0, 0);  ii := ii + 1;
    outcome := Installed;
  }

  /** Emit the block of architecture `ai` from index `start`: fall through into
      the jump table if the architecture matches, otherwise go to the next. */
  method EmitBlock(t: Tables, ai: nat, filter: array<Insn>, start: nat, ct: nat, idxAllow: nat)
      returns (outcome: Outcome, ii: nat, idxNextArch: int)
    requires t.Valid() && ai < t.ArchCt()
    requires start == Base(t, ai) && ct == N(t, ai) && idxAllow == Allow(t)
    requires start + ct + 6 <= idxAllow < filter.Length
    modifies filter
    ensures outcome != Misplaced
    ensures outcome.Installed? <==> ArchFits(t, ai)
    ensures outcome.Installed? ==> ii == idxNextArch == start + ct + 6 && BlockLaid(filter[..], t, ai)
    ensures SamePrefix(old(filter[..]), filter[..], start)
  {
    ii := start;
    idxNextArch := ii + ct + 4 + 2;
    Iw(filter, ii, LD_ABS, OFF_ARCH, 0, 0);  ii := ii + 1;
    var jump := idxNextArch - ii - 1;
    if !(jump <= 255) {
      return JumpTooFar, ii, idxNextArch;
    }
    Iw(filter, ii, JEQ, t.archs[ai], 0, jump);  ii := ii + 1;
    Iw(filter, ii, LD_ABS, OFF_NR, 0, 0);  ii := ii + 1;
    assert HeadLaid(filter[..], t, ai);
    outcome, ii := EmitJumpTable(t, ai, filter, ii, idxAllow + 1);
    if outcome != JumpTooFar {
      ghost var table := filter[..];
      assert HeadLaid(table, t, ai);
      outcome, ii := EmitFoot(t, ai, filter, ii, idxAllow);
      EntriesKept(table, filter[..], t, ai, t.Rows());
    }
  }

  /** Emit everything after the per-architecture blocks. */
  method EmitTail(filter: array<Insn>, start: nat)
    requires start + 10 == filter.Length
    modifies filter
    ensures TailLaid(filter[..], start)
    ensures SamePrefix(old(filter[..]), filter[..], start)
  {
    var ii := start;
    Iw(filter, ii, RET, RET_ALLOW, 0, 0);  ii := ii + 1;
    Iw(filter, ii, RET, RET_ERRNO, 0, 0);  ii := ii + 1;
    Iw(filter, ii, LD_ABS, OFF_ARG1, 0, 0);  ii := ii + 1;
    Iw(filter, ii, JA, 1, 0, 0);  ii := ii + 1;
    Iw(filter, ii, LD_ABS, OFF_ARG2, 0, 0);  ii := ii + 1;
    Iw(filter, ii, AND, S_IFMT, 0, 0);  ii := ii + 1;
    Iw(filter, ii, JEQ, S_IFCHR, 2, 0);  ii := ii + 1;
    Iw(filter, ii, JEQ, S_IFBLK, 1, 0);  ii := ii + 1;
    Iw(filter, ii, RET, RET_ALLOW, 0, 0);  ii := ii + 1;
    Iw(filter, ii, RET, RET_ERRNO, 0, 0);  ii := ii + 1;
  }

  /** seccomp_install(), up to the prctl(2) call that hands the filter over. */
  method Install(t: Tables) returns (outcome: Outcome, filter: array<Insn>)
    requires t.Valid() && Length(t) < 0x1_0000
    ensures outcome.Misplaced? <==> t.ArchCt() == 0
    ensures outcome.JumpTooFar? <==> !Fits(t)
    ensures outcome.Installed? ==> Compiled(filter[..], t)
  {
    var cts, len := CountSyscalls(t);
    filter := new Insn[len](_ => Insn(0, 0, 0, 0));
    var idxAllow := len - 2 - 2 - 6;  // the other handlers follow at fixed distances
    var ii, idxNextArch := 0, -1;
    var ai := 0;
    while t.archs[ai] != NR_END
      invariant 0 <= ai <= t.ArchCt()
      invariant ii == Base(t, ai) <= Allow(t)
      invariant idxNextArch == if ai == 0 then -1 else ii
      invariant forall a :: 0 <= a < t.ArchCt() ==> cts[a] == N(t, a)
      invariant forall a :: 0 <= a < ai ==> ArchFits(t, a)
      invariant BlocksLaid(filter[..], t, ai)
      decreases t.ArchCt() - ai
    {
      BaseMonotone(t, ai + 1, t.ArchCt());
      ghost var before := filter[..];
      outcome, ii, idxNextArch := EmitBlock(t, ai, filter, ii, cts[ai], idxAllow);
      if outcome == JumpTooFar {
        assert !ArchFits(t, ai);
        return;
      }
      BlocksNext(before, filter[..], t, ai);
      ai := ai + 1;
    }
    if idxNextArch != idxAllow || ii != idxAllow {
      return Misplaced, filter;
    }
    ghost var before := filter[..];
    EmitTail(filter, ii);
    BlocksKept(before, filter[..], t, ai);
    outcome := Installed;
  }

  // What is laid out stays so while later positions are written.

  ghost predicate SamePrefix(p: seq<Insn>, q: seq<Insn>, n: nat) {
    |p| == |q| && n <= |p| && forall i :: 0 <= i < n ==> p[i] == q[i]
  }

  ghost predicate BlocksLaid(p: seq<Insn>, t: Tables, ai: nat)
    requires t.Valid() && ai <= t.ArchCt()
  {
    forall a :: 0 <= a < ai ==> BlockLaid(p, t, a)
  }

  lemma EntriesExtend(p: seq<Insn>, q: seq<Insn>, t: Tables, ai: nat, si: nat)
    requires t.Valid() && ai < t.ArchCt() && si < t.Rows() && t.fake[si][ai] != NR_NON
    requires EntriesLaid(p, t, ai, si) && EntryPos(t, ai, si) < |p|
    requires var pos := EntryPos(t, ai, si);
             q == p[pos := Insn(JEQ, ToU8(Allow(t) + 1 - pos - 1), 0, ToU32(t.fake[si][ai]))]
    ensures EntriesLaid(q, t, ai, si + 1)
  {
    EntriesBelow(t, ai, si);
  }

  lemma EntriesKept(p: seq<Insn>, q: seq<Insn>, t: Tables, ai: nat, si: nat)
    requires t.Valid() && ai < t.ArchCt() && si <= t.Rows()
    requires EntriesLaid(p, t, ai, si) && SamePrefix(p, q, EntryPos(t, ai, si))
    ensures EntriesLaid(q, t, ai, si)
  {
    EntriesBelow(t, ai, si);
  }

  lemma EntriesBelow(t: Tables, ai: nat, si: nat)
    requires t.Valid() && ai < t.ArchCt() && si <= t.Rows()
    ensures forall j {:trigger EntryPos(t, ai, j)} :: 0 <= j < si && t.fake[j][ai] != NR_NON ==>
              EntryPos(t, ai, j) < EntryPos(t, ai, si)
  {
    forall j {:trigger EntryPos(t, ai, j)} | 0 <= j < si && t.fake[j][ai] != NR_NON
      ensures EntryPos(t, ai, j) < EntryPos(t, ai, si)
    {
      CountMonotone(t, ai, j + 1, si);
    }
  }

  lemma BlockKept(p: seq<Insn>, q: seq<Insn>, t: Tables, ai: nat)
    requires t.Valid() && ai < t.ArchCt() && BlockLaid(p, t, ai)
    requires SamePrefix(p, q, Base(t, ai) + N(t, ai) + 6)
    ensures BlockLaid(q, t, ai)
  {
    EntriesKept(p, q, t, ai, t.Rows());
  }

  lemma BlocksKept(p: seq<Insn>, q: seq<Insn>, t: Tables, ai: nat)
    requires t.Valid() && ai <= t.ArchCt()
    requires BlocksLaid(p, t, ai) && SamePrefix(p, q, Base(t, ai))
    ensures BlocksLaid(q, t, ai)
  {
    forall a | 0 <= a < ai ensures BlockLaid(q, t, a) {
      BaseMonotone(t, a + 1, ai);
      BlockKept(p, q, t, a);
    }
  }

  /** One more block. */
  lemma BlocksNext(p: seq<Insn>, q: seq<Insn>, t: Tables, ai: nat)
    requires t.Valid() && ai < t.ArchCt()
    requires BlocksLaid(p, t, ai) && SamePrefix(p, q, Base(t, ai)) && BlockLaid(q, t, ai)
    ensures BlocksLaid(q, t, ai + 1)
  {
    BlocksKept(p, q, t, ai);
  }

  // ---------------------------------------------------------------------------
  // Layout lemmas

  lemma {:induction false} CountMonotone(t: Tables, ai: nat, i: nat, j: nat)
    requires t.Valid() && ai < t.ArchCt() && i <= j <= t.Rows()
    ensures Count(t, ai, i) <= Count(t, ai, j) <= Count(t, ai, i) + j - i
  {
    if i < j { CountMonotone(t, ai, i, j - 1); }
  }

  lemma {:induction false} BaseMonotone(t: Tables, i: nat, j: nat)
    requires t.Valid() && i <= j <= t.ArchCt()
    ensures Base(t, i) + 6 * (j - i) <= Base(t, j)
  {
    if i < j { BaseMonotone(t, i, j - 1); }
  }

  /** The architecture whose block contains instruction `i`. */
  lemma {:induction false} BlockOf(t: Tables, upto: nat, i: nat) returns (ai: nat)
    requires t.Valid() && upto <= t.ArchCt() && i < Base(t, upto)
    ensures ai < upto && Base(t, ai) <= i < Base(t, ai) + N(t, ai) + 6
  {
    if Base(t, upto - 1) <= i { ai := upto - 1; } else { ai := BlockOf(t, upto - 1, i); }
  }

  /** The row whose entry is the `c`-th of the jump table. */
  lemma {:induction false} RowOf(t: Tables, ai: nat, upto: nat, c: nat) returns (si: nat)
    requires t.Valid() && ai < t.ArchCt() && upto <= t.Rows() && c < Count(t, ai, upto)
    ensures si < upto && t.fake[si][ai] != NR_NON && Count(t, ai, si) == c
  {
    if Count(t, ai, upto - 1) <= c { si := upto - 1; } else { si := RowOf(t, ai, upto - 1, c); }
  }

  // ---------------------------------------------------------------------------
  // What the tables say

  /** Character or block device: the only values of the four file type bits that
      mknod(2) and mknodat(2) fake. */
  predicate DeviceMode(mode: uint32) { mode / 0x1000 % 16 == 2 || mode / 0x1000 % 16 == 6 }

  ghost predicate FirstMatch(t: Tables, ai: nat, arch: uint32)
    requires t.Valid() && ai < t.ArchCt()
  {
    && ToU32(t.archs[ai]) == arch
    && forall a :: 0 <= a < ai ==> ToU32(t.archs[a]) != arch
  }

  ghost predicate Listed(t: Tables, ai: nat, si: nat, nr: uint32)
    requires t.Valid() && ai < t.ArchCt()
  {
    exists j :: si <= j < t.Rows() && t.fake[j][ai] != NR_NON && ToU32(t.fake[j][ai]) == nr
  }

  /** The verdict of one architecture. mknod is tested before mknodat, which
      matters only when both have the same number. */
  ghost predicate FakedBy(t: Tables, ai: nat, d: Data)
    requires t.Valid() && ai < t.ArchCt()
  {
    || Listed(t, ai, 0, Nr(d))
    || (if Nr(d) == ToU32(t.mknod[ai]) then DeviceMode(Arg1(d))
        else Nr(d) == ToU32(t.mknodat[ai]) && DeviceMode(Arg2(d)))
  }

  ghost predicate Faked(t: Tables, d: Data)
    requires t.Valid()
  {
    exists ai :: 0 <= ai < t.ArchCt() && FirstMatch(t, ai, Arch(d)) && FakedBy(t, ai, d)
  }

  ghost function Verdict(faked: bool): Option<uint32> { Some(if faked then RET_ERRNO else RET_ALLOW) }

  // ---------------------------------------------------------------------------
  // The program means what the tables say

  lemma {:induction false} AndEven(a: nat, b: nat)
    ensures And(a, 2 * b) == 2 * And(a / 2, b)
  {
    if a != 0 && b != 0 { assert 2 * b / 2 == b; }
  }

  lemma AndOdd(a: nat, b: nat)
    ensures And(a, 2 * b + 1) == 2 * And(a / 2, b) + a % 2
  {
    if a != 0 { assert (2 * b + 1) / 2 == b; }
  }

  lemma AndShift(a: nat, b: nat)
    ensures And(a, 16 * b) == 16 * And(a / 16, b)
  {
    AndEven(a, 8 * b);  AndEven(a / 2, 4 * b);  AndEven(a / 2 / 2, 2 * b);  AndEven(a / 2 / 2 / 2, b);
    assert a / 2 / 2 / 2 / 2 == a / 16;
  }

  lemma AndNibble(a: nat)
    ensures And(a, 15) == a % 16
  {
    AndOdd(a, 7);  AndOdd(a / 2, 3);  AndOdd(a / 4, 1);  AndOdd(a / 8, 0);
    assert And(a / 16, 0) == 0;
    assert a / 2 / 2 == a / 4 && a / 4 / 2 == a / 8;
  }

  /** Masking with S_IFMT isolates the four file type bits. */
  lemma FileType(a: uint32)
    ensures And(a, S_IFMT) == a / 0x1000 % 16 * 0x1000
  {
    AndShift(a, 0xF00);  AndShift(a / 16, 0xF0);  AndShift(a / 16 / 16, 15);
    AndNibble(a / 16 / 16 / 16);
    assert a / 16 / 16 / 16 == a / 0x1000;
  }

  /** From `pos` the program returns `v`, whatever is in the accumulator. */
  ghost predicate Returns(p: seq<Insn>, d: Data, pos: nat, v: Option<uint32>) {
    forall acc: uint32 :: Run(p, d, pos, acc) == v
  }

  /** The handlers after the blocks, which start at `a`. */
  ghost predicate TailRuns(p: seq<Insn>, d: Data, a: nat) {
    && Returns(p, d, a, Verdict(false))
    && Returns(p, d, a + 1, Verdict(true))
    && Returns(p, d, a + 2, Verdict(DeviceMode(Arg1(d))))
    && Returns(p, d, a + 4, Verdict(DeviceMode(Arg2(d))))
  }

  lemma TailMeaning(p: seq<Insn>, d: Data, a: nat)
    requires TailLaid(p, a)
    ensures TailRuns(p, d, a)
  {
    ModeTest(p, d, a, Arg1(d));
    ModeTest(p, d, a, Arg2(d));
    assert Run(p, d, a + 3, Arg1(d)) == Run(p, d, a + 5, Arg1(d));
  }

  lemma ModeTest(p: seq<Insn>, d: Data, a: nat, mode: uint32)
    requires TailLaid(p, a)
    ensures Run(p, d, a + 5, mode) == Verdict(DeviceMode(mode))
  {
    FileType(mode);
    var m: uint32 := And(mode, S_IFMT);
    assert Run(p, d, a + 8, m) == Verdict(false) && Run(p, d, a + 9, m) == Verdict(true);
    assert Run(p, d, a + 7, m) == Verdict(m == S_IFBLK);
    assert Run(p, d, a + 6, m) == Verdict(m == S_IFCHR || m == S_IFBLK);
  }

  /** One jump table entry. */
  lemma EntryRuns(p: seq<Insn>, d: Data, a: nat, pos: nat, nr: uint32, k: uint32)
    requires pos < a < |p| && a - pos <= 255 && p[pos] == Insn(JEQ, a - pos, 0, k) && TailRuns(p, d, a)
    ensures Run(p, d, pos, nr) == if nr == k then Verdict(true) else Run(p, d, pos + 1, nr)
  {
    assert Run(p, d, a + 1, nr) == Verdict(true);
  }

  lemma {:induction false} JumpTableMeaning(p: seq<Insn>, t: Tables, d: Data, ai: nat, si: nat)
    requires t.Valid() && ai < t.ArchCt() && ArchFits(t, ai) && si <= t.Rows() && |p| == Length(t)
    requires BlockLaid(p, t, ai) && TailRuns(p, d, Allow(t))
    ensures Run(p, d, EntryPos(t, ai, si), Nr(d))
         == if Listed(t, ai, si, Nr(d)) then Verdict(true) else Run(p, d, EntryPos(t, ai, t.Rows()), Nr(d))
    decreases t.Rows() - si
  {
    if si < t.Rows() {
      JumpTableMeaning(p, t, d, ai, si + 1);
      if t.fake[si][ai] != NR_NON {
        EntryAt(p, t, ai, si);
        EntryRuns(p, d, Allow(t), EntryPos(t, ai, si), Nr(d), ToU32(t.fake[si][ai]));
      }
    }
  }

  lemma EntryIs(p: seq<Insn>, t: Tables, ai: nat, si: nat)
    requires t.Valid() && ai < t.ArchCt() && si < t.Rows() && t.fake[si][ai] != NR_NON
    requires EntriesLaid(p, t, ai, t.Rows()) && EntriesFit(t, ai, t.Rows()) && EntryPos(t, ai, si) < Allow(t)
    ensures Allow(t) - EntryPos(t, ai, si) <= 255 && EntryPos(t, ai, si) < |p|
    ensures p[EntryPos(t, ai, si)] == Insn(JEQ, Allow(t) - EntryPos(t, ai, si), 0, ToU32(t.fake[si][ai]))
  {
  }

  lemma EntryAt(p: seq<Insn>, t: Tables, ai: nat, si: nat)
    requires t.Valid() && ai < t.ArchCt() && ArchFits(t, ai) && si < t.Rows() && t.fake[si][ai] != NR_NON
    requires BlockLaid(p, t, ai)
    ensures EntryPos(t, ai, si) < Allow(t) && Allow(t) - EntryPos(t, ai, si) <= 255
    ensures EntryPos(t, ai, si) < |p|
    ensures p[EntryPos(t, ai, si)] == Insn(JEQ, Allow(t) - EntryPos(t, ai, si), 0, ToU32(t.fake[si][ai]))
  {
    BaseMonotone(t, ai + 1, t.ArchCt());
    CountMonotone(t, ai, si + 1, t.Rows());
    EntryIs(p, t, ai, si);
  }

  /** The three instructions after the jump table. */
  lemma FootRuns(p: seq<Insn>, d: Data, a: nat, pos: nat, nr: uint32, m: uint32, mat: uint32)
    requires pos + 3 <= a < |p| && a + 2 - pos <= 255 && TailRuns(p, d, a)
    requires p[pos] == Insn(JEQ, a + 1 - pos, 0, m)
    requires p[pos + 1] == Insn(JEQ, a + 2 - pos, 0, mat)
    requires a < 0x1_0000 && p[pos + 2] == Insn(JA, 0, 0, a - pos - 3)
    ensures Run(p, d, pos, nr)
         == Verdict(if nr == m then DeviceMode(Arg1(d)) else nr == mat && DeviceMode(Arg2(d)))
  {
    assert Run(p, d, pos + 2, nr) == Verdict(false);
    assert Run(p, d, pos + 1, nr) == if nr == mat then Run(p, d, a + 4, nr) else Run(p, d, pos + 2, nr);
    assert Run(p, d, pos, nr) == if nr == m then Run(p, d, a + 2, nr) else Run(p, d, pos + 1, nr);
  }

  lemma FootAt(p: seq<Insn>, t: Tables, ai: nat)
    requires t.Valid() && ai < t.ArchCt() && FootFits(t, ai) && Length(t) < 0x1_0000
    requires BlockLaid(p, t, ai)
    ensures var pos, a := EntryPos(t, ai, t.Rows()), Allow(t);
            && pos + 3 <= a && a + 2 - pos <= 255 && pos + 3 <= |p|
            && p[pos] == Insn(JEQ, a + 1 - pos, 0, ToU32(t.mknod[ai]))
            && p[pos + 1] == Insn(JEQ, a + 2 - pos, 0, ToU32(t.mknodat[ai]))
            && p[pos + 2] == Insn(JA, 0, 0, a - pos - 3)
  {
    BaseMonotone(t, ai + 1, t.ArchCt());
  }

  lemma HeadRuns(p: seq<Insn>, d: Data, b: nat, n: nat, k: uint32, acc: uint32)
    requires b + 3 <= |p| && n + 4 <= 255
    requires p[b] == Insn(LD_ABS, 0, 0, OFF_ARCH)
    requires p[b + 1] == Insn(JEQ, 0, n + 4, k)
    requires p[b + 2] == Insn(LD_ABS, 0, 0, OFF_NR)
    ensures Run(p, d, b, acc)
         == if Arch(d) == k then Run(p, d, b + 3, Nr(d)) else Run(p, d, b + n + 6, Arch(d))
  {
    assert Run(p, d, b, acc) == Run(p, d, b + 1, Arch(d));
    assert Run(p, d, b + 2, Arch(d)) == Run(p, d, b + 3, Nr(d));
  }

  lemma FootMeaning(p: seq<Insn>, t: Tables, d: Data, ai: nat)
    requires t.Valid() && ai < t.ArchCt() && ArchFits(t, ai) && Length(t) < 0x1_0000 && |p| == Length(t)
    requires BlockLaid(p, t, ai) && TailRuns(p, d, Allow(t))
    ensures Run(p, d, EntryPos(t, ai, t.Rows()), Nr(d))
         == Verdict(if Nr(d) == ToU32(t.mknod[ai]) then DeviceMode(Arg1(d))
                    else Nr(d) == ToU32(t.mknodat[ai]) && DeviceMode(Arg2(d)))
  {
    FootAt(p, t, ai);
    FootRuns(p, d, Allow(t), EntryPos(t, ai, t.Rows()), Nr(d), ToU32(t.mknod[ai]), ToU32(t.mknodat[ai]));
  }

  lemma HeadMeaning(p: seq<Insn>, t: Tables, d: Data, ai: nat, acc: uint32)
    requires t.Valid() && ai < t.ArchCt() && ArchFits(t, ai)
    requires BlockLaid(p, t, ai)
    ensures Run(p, d, Base(t, ai), acc)
         == if Arch(d) == ToU32(t.archs[ai]) then Run(p, d, EntryPos(t, ai, 0), Nr(d))
            else Run(p, d, Base(t, ai + 1), Arch(d))
  {
    HeadRuns(p, d, Base(t, ai), N(t, ai), ToU32(t.archs[ai]), acc);
  }

  /** One architecture's block decides the call if the architecture matches and
      otherwise falls to the next block. */
  lemma BlockMeaning(p: seq<Insn>, t: Tables, d: Data, ai: nat, acc: uint32)
    requires t.Valid() && ai < t.ArchCt() && ArchFits(t, ai) && Length(t) < 0x1_0000 && |p| == Length(t)
    requires BlockLaid(p, t, ai) && TailRuns(p, d, Allow(t))
    ensures Run(p, d, Base(t, ai), acc)
         == if ToU32(t.archs[ai]) == Arch(d) then Verdict(FakedBy(t, ai, d))
            else Run(p, d, Base(t, ai + 1), Arch(d))
  {
    HeadMeaning(p, t, d, ai, acc);
    JumpTableMeaning(p, t, d, ai, 0);
    FootMeaning(p, t, d, ai);
  }

  lemma {:induction false} BlocksMeaning(p: seq<Insn>, t: Tables, d: Data, ai: nat, acc: uint32)
    requires t.Valid() && Fits(t) && Length(t) < 0x1_0000 && ai <= t.ArchCt()
    requires Compiled(p, t) && TailRuns(p, d, Allow(t))
    requires forall a :: 0 <= a < ai ==> ToU32(t.archs[a]) != Arch(d)
    ensures Run(p, d, Base(t, ai), acc) == Verdict(Faked(t, d))
    decreases t.ArchCt() - ai
  {
    if ai < t.ArchCt() {
      BlockMeaning(p, t, d, ai, acc);
      if ToU32(t.archs[ai]) == Arch(d) {
        assert FirstMatch(t, ai, Arch(d));
      } else {
        BlocksMeaning(p, t, d, ai + 1, Arch(d));
      }
    }
  }

  /** Compiler correctness: for all tables whose jumps fit and every system call,
      the emitted program terminates with fake success if the tables say so and
      with "allow" otherwise, unknown architectures included. In the word returned, the
      upper half is the action, 5 being to fail with the error number in the lower half,
      which is 0. */
  lemma ProgramMeaning(p: seq<Insn>, t: Tables, d: Data)
    requires t.Valid() && Fits(t) && Length(t) < 0x1_0000 && Compiled(p, t)
    ensures Run(p, d, 0, 0) == Verdict(Faked(t, d))
    ensures var r := Run(p, d, 0, 0);
            && r.Some? && r.value as int % 0x1_0000 == 0
            && r.value as int / 0x1_0000 == if Faked(t, d) then 5 else 0x7FFF
  {
    TailMeaning(p, d, Allow(t));
    BlocksMeaning(p, t, d, 0, 0);
  }

  ghost predicate JumpOk(p: seq<Insn>, i: nat, allow: nat)
    requires i < |p|
  {
    && (p[i].op == JEQ ==> i + 1 + p[i].jt < |p| && i + 1 + p[i].jf < |p|)
    && (p[i].op == JA ==> i + 1 + p[i].k == allow)
  }

  /** Every conditional jump of a block goes forward to an instruction of the
      program, and every unconditional one goes to "allow". */
  lemma JumpsInRange(p: seq<Insn>, t: Tables, i: nat)
    requires t.Valid() && Fits(t) && i < Allow(t) && Length(t) < 0x1_0000 && Compiled(p, t)
    ensures JumpOk(p, i, Allow(t))
  {
    var ai := BlockOf(t, t.ArchCt(), i);
    assert ArchFits(t, ai) && BlockLaid(p, t, ai);
    var k := i - Base(t, ai);
    if 3 <= k < 3 + N(t, ai) {
      var si := RowOf(t, ai, t.Rows(), k - 3);
      EntryAt(p, t, ai, si);
    } else {
      FootAt(p, t, ai);
    }
  }

  // ---------------------------------------------------------------------------
  // Absent mknod numbers

  /** What the tables would say if NR_NON meant "no such system call" in the
      mknod and mknodat tables too. */
  ghost predicate IdealFakedBy(t: Tables, ai: nat, d: Data)
    requires t.Valid() && ai < t.ArchCt()
  {
    || Listed(t, ai, 0, Nr(d))
    || (if t.mknod[ai] != NR_NON && Nr(d) == ToU32(t.mknod[ai]) then DeviceMode(Arg1(d))
        else t.mknodat[ai] != NR_NON && Nr(d) == ToU32(t.mknodat[ai]) && DeviceMode(Arg2(d)))
  }

  /** NR_NON is emitted as the word 0xFFFFFFFF, so the filter departs from that
      reading exactly for that number, on an architecture that lacks the call,
      with a device mode in the argument that the missing call would use. */
  lemma AbsentMknod(t: Tables, ai: nat, d: Data)
    requires t.Valid() && ai < t.ArchCt()
    ensures FakedBy(t, ai, d) == IdealFakedBy(t, ai, d)
        <==> !(Nr(d) == 0xFFFF_FFFF
               && (if t.mknod[ai] == NR_NON then DeviceMode(Arg1(d))
                   else t.mknodat[ai] == NR_NON && DeviceMode(Arg2(d))))
  {
    assert forall x: int32 :: ToU32(x) == 0xFFFF_FFFF <==> x == NR_NON;
  }

  // ---------------------------------------------------------------------------
  // The exact limit

  /** The limit that the source leaves uncomputed: how many instructions the
      blocks may have together. It depends on the first architecture only, whose
      jumps are the longest. */
  ghost function Limit(t: Tables): nat
    requires t.Valid() && t.ArchCt() > 0
  {
    if N(t, 0) == 0 then 256
    else if N(t, 0) == 1 || t.ArchCt() == 1 then 257
    else 258
  }

  /** Tables compile if and only if the sum of (faked calls + 6) over the
      architectures is within the limit. */
  lemma FitsExactly(t: Tables)
    requires t.Valid() && t.ArchCt() > 0
    ensures Fits(t) <==> Allow(t) <= Limit(t)
  {
    BaseMonotone(t, 1, t.ArchCt());
    if Allow(t) <= Limit(t) {
      forall ai | 0 <= ai < t.ArchCt() ensures ArchFits(t, ai) { SmallArchFits(t, ai); }
    } else {
      assert Base(t, 1) == N(t, 0) + 6;
      if N(t, 0) >= 2 && t.ArchCt() > 1 {
        var si := RowOf(t, 0, t.Rows(), 0);
        assert EntryPos(t, 0, si) == 3;
        assert !EntriesFit(t, 0, t.Rows());
      }
      assert !ArchFits(t, 0);
    }
  }

  lemma SmallArchFits(t: Tables, ai: nat)
    requires t.Valid() && ai < t.ArchCt() && Allow(t) <= Limit(t)
    ensures ArchFits(t, ai)
  {
    BaseMonotone(t, 0, ai);
    BaseMonotone(t, ai + 1, t.ArchCt());
    if ai == 0 {
      assert EntryPos(t, 0, t.Rows()) == 3 + N(t, 0);
    } else {
      BaseMonotone(t, 1, ai);
    }
    forall j | 0 <= j < t.Rows() && t.fake[j][ai] != NR_NON
      ensures Allow(t) + 1 - EntryPos(t, ai, j) - 1 <= 255
    {
      CountMonotone(t, ai, 0, j);
      CountMonotone(t, ai, j + 1, t.Rows());
    }
  }
}
