/** The SH-4A as the block-transfer code uses it: longword and byte accesses that can fault, byte
    swaps, branches in both directions, and the site's call and return. */
module Sh4Mem {
  import opened Words
  import opened Guest
  import opened GuestBus
  import opened Chunks
  import Sh4

  datatype Reg = R0 | R1 | R2 | R3 | R4 | R5 | R6 | R7 | R8 | R11 | R12 | R13

  /** R13 counts guest cycles down, R11 and R8 pin guest r0 and CPSR, `file` is what R14 points
      to, `mem` the host memory that guest pages and code tags live in, by address. */
  datatype Mach = Mach(r0: Word, r1: Word, r2: Word, r3: Word, r4: Word, r5: Word, r6: Word, r7: Word,
                       r8: Word, r11: Word, r12: Word, r13: Word, t: bool, macl: Word,
                       file: RegFile, mem: seq<Byte>)

  function Get(s: Mach, r: Reg): Word {
    match r
    case R0 => s.r0 case R1 => s.r1 case R2 => s.r2 case R3 => s.r3 case R4 => s.r4 case R5 => s.r5
    case R6 => s.r6 case R7 => s.r7 case R8 => s.r8 case R11 => s.r11 case R12 => s.r12 case R13 => s.r13
  }
  function Set(s: Mach, r: Reg, v: Word): Mach {
    match r
    case R0 => s.(r0 := v) case R1 => s.(r1 := v) case R2 => s.(r2 := v) case R3 => s.(r3 := v)
    case R4 => s.(r4 := v) case R5 => s.(r5 := v) case R6 => s.(r6 := v) case R7 => s.(r7 := v)
    case R8 => s.(r8 := v) case R11 => s.(r11 := v) case R12 => s.(r12 := v) case R13 => s.(r13 := v)
  }

  /** Read-only words around `mem`: the host-page table, the call site's literals and the bytes
      of the sequential wait-state table. */
  datatype Lay = Lay(table: Word, entry: nat -> Word, tuple: Word, params: Word, costs: Word, ws: nat -> Byte)

  datatype Ins =
    | Mov(m: Reg, n: Reg) | Add(m: Reg, n: Reg) | Sub(m: Reg, n: Reg) | Shld(m: Reg, n: Reg)
    | MovI(imm: int, n: Reg) | AddI(imm: int, n: Reg) | AndI(mask: Word) | Const(value: Word, n: Reg)
    | Shll(n: Reg) | Shlr(n: Reg) | Shll2(n: Reg) | Shlr2(n: Reg) | Shlr8(n: Reg) | Shlr16(n: Reg) | Shll16(n: Reg)
    | SwpB(m: Reg, n: Reg) | SwpW(m: Reg, n: Reg) | ExtuB(m: Reg, n: Reg) | ExtuW(m: Reg, n: Reg)
    | CmpEq(m: Reg, n: Reg) | CmpHs(m: Reg, n: Reg) | CmpEqI(imm: int) | Tst(m: Reg, n: Reg) | TstI(mask: Word)
    | Dt(n: Reg) | MulL(m: Reg, n: Reg) | StsMacl(n: Reg) | StsPr(n: Reg) | LdVec(n: Reg)
    | LdG(i: nat, n: Reg) | StG(m: Reg, i: nat) // MOV.L @(disp,R14)
    | Nop
    | LdGR0(n: Reg) | StGR0(m: Reg)             // MOV.L @(R0,R14)
    | LdL(m: Reg, n: Reg) | StL(m: Reg, n: Reg) // MOV.L @(R0,Rm),Rn and MOV.L Rm,@(R0,Rn)
    | LdB(m: Reg, n: Reg)                       // MOV.B @(R0,Rm),Rn
    | LdDisp(m: Reg, at: nat, n: Reg)         // MOV.L @(disp,Rm),Rn
    | Bt(disp: int) | Bf(disp: int) | Bra(disp: int)
    | Jsr(to: nat) | Rts
    | Slow                                      // the call of the C helper

  // ---- bytes of a longword ---------------------------------------------------------

  /** Big-endian host longword and the three swaps that turn it around. */
  function Raw(bs: seq<Byte>): Word
    requires |bs| == 4
  { var x: int, y: int, z: int := bs[0], bs[1], bs[2]; 0x100_0000 * x + 0x1_0000 * y + 0x100 * z + bs[3] }
  function SwapB(x: Word): Word { x - x % 0x1_0000 + 0x100 * (x % 0x100) + (x / 0x100) % 0x100 }
  function SwapW(x: Word): Word { 0x1_0000 * (x % 0x1_0000) + x / 0x1_0000 }
  function Reversed(x: Word): Word { SwapB(SwapW(SwapB(x))) }
  function RawBytes(x: Word): (bs: seq<Byte>)
    ensures |bs| == 4
  { [x / 0x100_0000, (x / 0x1_0000) % 0x100, (x / 0x100) % 0x100, x % 0x100] }

  lemma ReversedRaw(bs: seq<Byte>)
    requires |bs| == 4
    ensures Reversed(Raw(bs)) == FromLe(bs)
  {
    var x: int, y: int, z: int, u: int := bs[0], bs[1], bs[2], bs[3];
    Swaps(x, y, z, u);
  }
  lemma Swaps(x: int, y: int, z: int, u: int)
    requires 0 <= x < 256 && 0 <= y < 256 && 0 <= z < 256 && 0 <= u < 256
    ensures var raw := 0x100_0000 * x + 0x1_0000 * y + 0x100 * z + u;
      Reversed(raw) == x + 0x100 * y + 0x1_0000 * z + 0x100_0000 * u
  {
    var raw := 0x100_0000 * x + 0x1_0000 * y + 0x100 * z + u;
    SwapBIs(x, y, z, u); SwapWIs(x, y, u, z); SwapBIs(u, z, x, y);
    hide SwapB, SwapW;
  }
  lemma SwapBIs(x: int, y: int, z: int, u: int)
    requires 0 <= x < 256 && 0 <= y < 256 && 0 <= z < 256 && 0 <= u < 256
    ensures SwapB(0x100_0000 * x + 0x1_0000 * y + 0x100 * z + u) == 0x100_0000 * x + 0x1_0000 * y + 0x100 * u + z
  {
    var v := 0x100_0000 * x + 0x1_0000 * y + 0x100 * z + u;
    ModUnique(v, 0x1_0000, 0x100 * x + y, 0x100 * z + u);
    ModUnique(v, 0x100, 0x1_0000 * x + 0x100 * y + z, u);
    ModUnique(v / 0x100, 0x100, 0x100 * x + y, z);
  }
  lemma SwapWIs(x: int, y: int, z: int, u: int)
    requires 0 <= x < 256 && 0 <= y < 256 && 0 <= z < 256 && 0 <= u < 256
    ensures SwapW(0x100_0000 * x + 0x1_0000 * y + 0x100 * z + u) == 0x100_0000 * z + 0x1_0000 * u + 0x100 * x + y
  { ModUnique(0x100_0000 * x + 0x1_0000 * y + 0x100 * z + u, 0x1_0000, 0x100 * x + y, 0x100 * z + u); }
  lemma RawReversed(v: Word)
    ensures RawBytes(Reversed(v)) == Le(v)
  {
    var x, y, z, u := v / 0x100_0000, (v / 0x1_0000) % 0x100, (v / 0x100) % 0x100, v % 0x100;
    assert v == 0x100_0000 * x + 0x1_0000 * y + 0x100 * z + u;
    Swaps(x, y, z, u);
    BytesOf(u, z, y, x);
    hide Reversed;
  }
  lemma BytesOf(x: int, y: int, z: int, u: int)
    requires 0 <= x < 256 && 0 <= y < 256 && 0 <= z < 256 && 0 <= u < 256
    ensures RawBytes(0x100_0000 * x + 0x1_0000 * y + 0x100 * z + u) == [x, y, z, u]
  { LeParts(u, z, y, x); }


  // ---- one instruction -----------------------------------------------------------------

  function MovB(b: Byte): Word { if b < 0x80 then b else 0xFFFF_FF00 + b }

  /** Instructions that only change registers, T and the register file. */
  predicate Pure(i: Ins) {
    !(i.LdGR0? || i.StGR0? || i.LdL? || i.StL? || i.LdB? || i.LdDisp?
      || i.Bt? || i.Bf? || i.Bra? || i.Jsr? || i.Rts? || i.Slow?)
  }
  function Do(lay: Lay, i: Ins, s: Mach): Mach {
    match i
    case Mov(m, n) => Set(s, n, Get(s, m))
    case Add(m, n) => Set(s, n, AddW(Get(s, n), Get(s, m)))
    case Sub(m, n) => Set(s, n, SubW(Get(s, n), Get(s, m)))
    case Shld(m, n) => Set(s, n, Sh4.ShldOf(Get(s, m), Get(s, n)))
    case MovI(imm, n) => Set(s, n, Sh4.SExt8(imm))
    case AddI(imm, n) => Set(s, n, AddW(Get(s, n), Sh4.SExt8(imm)))
    case AndI(mask) => s.(r0 := AndW(s.r0, mask))
    case Const(v, n) => Set(s, n, v)
    case Shll(n) => Set(s, n, Sh4.Shl1(Get(s, n))).(t := Neg31(Get(s, n)))
    case Shlr(n) => Set(s, n, Get(s, n) / 2).(t := Get(s, n) % 2 == 1)
    case Shll2(n) => Set(s, n, Sh4.Shl2(Get(s, n)))
    case Shlr2(n) => Set(s, n, Get(s, n) / 4)
    case Shlr8(n) => Set(s, n, Get(s, n) / 0x100)
    case Shlr16(n) => Set(s, n, Get(s, n) / 0x1_0000)
    case Shll16(n) => Set(s, n, Sh4.Lo(0x1_0000 * Get(s, n)))
    case SwpB(m, n) => Set(s, n, SwapB(Get(s, m)))
    case SwpW(m, n) => Set(s, n, SwapW(Get(s, m)))
    case ExtuB(m, n) => Set(s, n, Get(s, m) % 0x100)
    case ExtuW(m, n) => Set(s, n, Get(s, m) % 0x1_0000)
    case CmpEq(m, n) => s.(t := Get(s, m) == Get(s, n))
    case CmpHs(m, n) => s.(t := Get(s, n) >= Get(s, m))
    case CmpEqI(imm) => s.(t := s.r0 == Sh4.SExt8(imm))
    case Tst(m, n) => s.(t := AndW(Get(s, n), Get(s, m)) == 0)
    case TstI(mask) => s.(t := AndW(s.r0, mask) == 0)
    case Dt(n) => Set(s, n, SubW(Get(s, n), 1)).(t := Get(s, n) == 1)
    case MulL(m, n) => s.(macl := MulW(Get(s, n), Get(s, m)))
    case StsMacl(n) => Set(s, n, s.macl)
    case StsPr(n) => Set(s, n, lay.tuple)
    case LdVec(n) => Set(s, n, lay.costs)
    case LdG(i, n) => if i < 16 then Set(s, n, s.file[i]) else s
    case StG(m, i) => if i < 16 then s.(file := s.file[i := Get(s, m)]) else s
    case _ => s
  }

  /** A longword of the host; None is an address error. */
  function WordAt(lay: Lay, mem: seq<Byte>, a: nat): Sh4.Option<Word> {
    if a % 4 != 0 then Sh4.None
    else if lay.table <= a < lay.table + 0x8000 then Sh4.Some(lay.entry((a - lay.table) / 4))
    else if a == lay.tuple + 24 then Sh4.Some(lay.params)
    else if a + 4 <= |mem| then Sh4.Some(Raw(mem[a..a + 4]))
    else Sh4.None
  }
  function ByteAt(lay: Lay, mem: seq<Byte>, a: nat): Sh4.Option<Byte> {
    if lay.costs <= a < lay.costs + 32 then Sh4.Some(lay.ws(a - lay.costs))
    else if a < |mem| then Sh4.Some(mem[a]) else Sh4.None
  }
  function Loaded(s: Mach, v: Sh4.Option<Word>, n: Reg): Sh4.Option<Mach> {
    if v.None? then Sh4.None else Sh4.Some(Set(s, n, v.value))
  }
  /** Any instruction but a branch. */
  function Effect(lay: Lay, i: Ins, s: Mach): Sh4.Option<Mach> {
    match i
    case LdGR0(n) => if s.r0 % 4 == 0 && s.r0 < 64 then Sh4.Some(Set(s, n, s.file[s.r0 / 4])) else Sh4.None
    case StGR0(m) => if s.r0 % 4 == 0 && s.r0 < 64 then Sh4.Some(s.(file := s.file[s.r0 / 4 := Get(s,
        m)])) else Sh4.None
    case LdL(m, n) => Loaded(s, WordAt(lay, s.mem, AddW(s.r0, Get(s, m))), n)
    case StL(m, n) =>
      var a := AddW(s.r0, Get(s, n));
      if a % 4 == 0 && a + 4 <= |s.mem| then Sh4.Some(s.(mem := Put(s.mem, a, RawBytes(Get(s, m))))) else Sh4.None
    case LdB(m, n) =>
      var b := ByteAt(lay, s.mem, AddW(s.r0, Get(s, m)));
      if b.None? then Sh4.None else Sh4.Some(Set(s, n, MovB(b.value)))
    case LdDisp(m, at, n) => Loaded(s, WordAt(lay, s.mem, Get(s, m) + at), n)
    case _ => if Pure(i) then Sh4.Some(Do(lay, i, s)) else Sh4.None
  }

  // ---- programs ------------------------------------------------------------------------

  /** `pr` is where the routine returns to. */
  datatype Conf = Conf(pc: nat, pr: nat, s: Mach)

  function Jump(code: seq<Ins>, c: Conf, to: int): Sh4.Option<Conf> {
    if 0 <= to <= |code| then Sh4.Some(c.(pc := to)) else Sh4.None
  }
  predicate Delayed(code: seq<Ins>, pc: nat) { pc + 1 < |code| && code[pc + 1].Nop? }

  /** One step; None at the end, at the call of the helper and at a fault. */
  function Next(lay: Lay, code: seq<Ins>, c: Conf): Sh4.Option<Conf> {
    if c.pc >= |code| then Sh4.None
    else
      match code[c.pc]
      case Bt(d) => Jump(code, c, if c.s.t then c.pc + 2 + d else c.pc + 1)
      case Bf(d) => Jump(code, c, if c.s.t then c.pc + 1 else c.pc + 2 + d)
      case Bra(d) => if Delayed(code, c.pc) then Jump(code, c, c.pc + 2 + d) else Sh4.None
      case Jsr(to) => if Delayed(code, c.pc) then Jump(code, c.(pr := c.pc + 2), to) else Sh4.None
      case Rts => if Delayed(code, c.pc) then Jump(code, c, c.pr) else Sh4.None
      case i =>
        var s := Effect(lay, i, c.s);
        if s.None? then Sh4.None else Sh4.Some(c.(pc := c.pc + 1, s := s.value))
  }
  function Go(lay: Lay, code: seq<Ins>, c: Conf, n: nat): Sh4.Option<Conf>
    decreases n
  {
    if n == 0 then Sh4.Some(c)
    else
      var d := Next(lay, code, c);
      if d.None? then Sh4.None else Go(lay, code, d.value, n - 1)
  }
  /** Execution from c passes through d. */
  ghost predicate Leads(lay: Lay, code: seq<Ins>, c: Conf, d: Conf) {
    exists n: nat :: Go(lay, code, c, n) == Sh4.Some(d)
  }

  lemma {:induction false} GoOn(lay: Lay, code: seq<Ins>, c: Conf, d: Conf, n: nat, k: nat)
    requires Go(lay, code, c, n) == Sh4.Some(d)
    ensures Go(lay, code, c, n + k) == Go(lay, code, d, k)
    decreases n
  {
    hide Next;
    if n > 0 { GoOn(lay, code, Next(lay, code, c).value, d, n - 1, k); }
  }
  lemma Then(lay: Lay, code: seq<Ins>, c: Conf, d: Conf, f: Conf)
    requires Leads(lay, code, c, d) && Leads(lay, code, d, f)
    ensures Leads(lay, code, c, f)
  {
    hide Go;
    var n: nat :| Go(lay, code, c, n) == Sh4.Some(d);
    var k: nat :| Go(lay, code, d, k) == Sh4.Some(f);
    GoOn(lay, code, c, d, n, k);
  }
  lemma Stay(lay: Lay, code: seq<Ins>, c: Conf)
    ensures Leads(lay, code, c, c)
  { assert Go(lay, code, c, 0) == Sh4.Some(c); }
  lemma One(lay: Lay, code: seq<Ins>, c: Conf, d: Conf)
    requires Next(lay, code, c) == Sh4.Some(d)
    ensures Leads(lay, code, c, d)
  {
    hide Next;
    assert Go(lay, code, d, 0) == Sh4.Some(d);
    assert Go(lay, code, c, 1) == Sh4.Some(d);
  }
  /** Execution is deterministic: what it stops at is unique. */
  lemma {:induction false} StopsOnce(lay: Lay, code: seq<Ins>, c: Conf, d: Conf, f: Conf, n: nat, k: nat)
    requires Go(lay, code, c, n) == Sh4.Some(d) && Next(lay, code, d).None?
    requires Go(lay, code, c, k) == Sh4.Some(f) && Next(lay, code, f).None?
    ensures d == f
    decreases n
  {
    hide Next;
    if n > 0 && k > 0 { StopsOnce(lay, code, Next(lay, code, c).value, d, f, n - 1, k - 1); }
  }

  /** `seg` is the code from pc on. */
  predicate At(code: seq<Ins>, pc: nat, seg: seq<Ins>) { pc + |seg| <= |code| && code[pc..pc + |seg|] == seg }
  lemma AtSplit(code: seq<Ins>, pc: nat, a: seq<Ins>, b: seq<Ins>)
    requires At(code, pc, a + b)
    ensures At(code, pc, a) && At(code, pc + |a|, b)
  {
    assert code[pc..pc + |a| + |b|][..|a|] == a && code[pc..pc + |a| + |b|][|a|..] == b;
    assert code[pc..pc + |a|] == code[pc..pc + |a| + |b|][..|a|];
    assert code[pc + |a|..pc + |a| + |b|] == code[pc..pc + |a| + |b|][|a|..];
  }
  lemma AtIndex(code: seq<Ins>, pc: nat, seg: seq<Ins>, k: nat)
    requires At(code, pc, seg) && k < |seg|
    ensures pc + k < |code| && code[pc + k] == seg[k]
  { assert code[pc..pc + |seg|][k] == code[pc + k]; }

  ghost predicate AllPure(seg: seq<Ins>) { forall i :: 0 <= i < |seg| ==> Pure(seg[i]) }
  function Run(lay: Lay, seg: seq<Ins>, s: Mach): Mach {
    if seg == [] then s else Run(lay, seg[1..], Do(lay, seg[0], s))
  }
  lemma {:induction false} RunAppend(lay: Lay, a: seq<Ins>, b: seq<Ins>, s: Mach)
    ensures Run(lay, a + b, s) == Run(lay, b, Run(lay, a, s))
  {
    hide Do;
    if a == [] { assert a + b == b; }
    else {
      assert (a + b)[1..] == a[1..] + b;
      RunAppend(lay, a[1..], b, Do(lay, a[0], s));
    }
  }
  lemma Run1(lay: Lay, a: Ins, s: Mach)
    ensures Run(lay, [a], s) == Do(lay, a, s)
  {
    hide Do;
    assert [a][1..] == [];
    assert Run(lay, [a], s) == Run(lay, [a][1..], Do(lay, a, s));
  }
  lemma Run2(lay: Lay, a: Ins, b: Ins, s: Mach)
    ensures Run(lay, [a, b], s) == Do(lay, b, Do(lay, a, s))
  {
    hide Do;
    Run1(lay, a, s); Run1(lay, b, Do(lay, a, s)); RunAppend(lay, [a], [b], s);
    assert [a] + [b] == [a, b];
  }
  lemma Run3(lay: Lay, a: Ins, b: Ins, c: Ins, s: Mach)
    ensures Run(lay, [a, b, c], s) == Do(lay, c, Do(lay, b, Do(lay, a, s)))
  {
    hide Do;
    Run2(lay, a, b, s); Run1(lay, c, Do(lay, b, Do(lay, a, s))); RunAppend(lay, [a, b], [c], s);
    assert [a, b] + [c] == [a, b, c];
  }
  lemma Run4(lay: Lay, a: Ins, b: Ins, c: Ins, d: Ins, s: Mach)
    ensures Run(lay, [a, b, c, d], s) == Do(lay, d, Do(lay, c, Do(lay, b, Do(lay, a, s))))
  {
    hide Do;
    Run2(lay, a, b, s); Run2(lay, c, d, Do(lay, b, Do(lay, a, s))); RunAppend(lay, [a, b], [c, d], s);
    assert [a, b] + [c, d] == [a, b, c, d];
  }
  lemma Run5(lay: Lay, a: Ins, b: Ins, c: Ins, d: Ins, e: Ins, s: Mach)
    ensures Run(lay, [a, b, c, d, e], s) == Do(lay, e, Do(lay, d, Do(lay, c, Do(lay, b, Do(lay, a, s)))))
  {
    hide Do;
    Run2(lay, a, b, s); Run3(lay, c, d, e, Do(lay, b, Do(lay, a, s))); RunAppend(lay, [a, b], [c, d, e], s);
    assert [a, b] + [c, d, e] == [a, b, c, d, e];
  }
  lemma Run6(lay: Lay, a: Ins, b: Ins, c: Ins, d: Ins, e: Ins, f: Ins, s: Mach)
    ensures Run(lay, [a, b, c, d, e, f], s) == Do(lay, f, Do(lay, e, Do(lay, d, Do(lay, c, Do(lay, b, Do(lay, a, s))))))
  {
    hide Do;
    Run3(lay, a, b, c, s); Run3(lay, d, e, f, Do(lay, c, Do(lay, b, Do(lay, a, s))));
    RunAppend(lay, [a, b, c], [d, e, f], s);
    assert [a, b, c] + [d, e, f] == [a, b, c, d, e, f];
  }
  lemma Run7(lay: Lay, a: Ins, b: Ins, c: Ins, d: Ins, e: Ins, f: Ins, g: Ins, s: Mach)
    ensures Run(lay, [a, b, c, d, e, f, g], s)
      == Do(lay, g, Do(lay, f, Do(lay, e, Do(lay, d, Do(lay, c, Do(lay, b, Do(lay, a, s)))))))
  {
    hide Do;
    Run4(lay, a, b, c, d, s); Run3(lay, e, f, g, Do(lay, d, Do(lay, c, Do(lay, b, Do(lay, a, s)))));
    RunAppend(lay, [a, b, c, d], [e, f, g], s);
    assert [a, b, c, d] + [e, f, g] == [a, b, c, d, e, f, g];
  }

  // ---- moving through a program ------------------------------------------------------------

  /** At c the rest of a stretch that ends at `end` is `rest`. */
  predicate Here(code: seq<Ins>, c: Conf, rest: seq<Ins>, end: nat) { At(code, c.pc, rest) && c.pc + |rest| == end }

  function After(c: Conf, k: nat, s: Mach): Conf { c.(pc := c.pc + k, s := s) }

  lemma {:induction false} Through(lay: Lay, code: seq<Ins>, c: Conf, seg: seq<Ins>)
    requires At(code, c.pc, seg) && AllPure(seg)
    ensures Leads(lay, code, c, After(c, |seg|, Run(lay, seg, c.s)))
    decreases |seg|
  {
    hide Leads, Do;
    if seg == [] { Stay(lay, code, c); }
    else {
      AtIndex(code, c.pc, seg, 0);
      assert [seg[0]] + seg[1..] == seg;
      AtSplit(code, c.pc, [seg[0]], seg[1..]);
      var c1 := After(c, 1, Do(lay, seg[0], c.s));
      One(lay, code, c, c1);
      Through(lay, code, c1, seg[1..]);
      Then(lay, code, c, c1, After(c, |seg|, Run(lay, seg, c.s)));
    }
  }
  /** Straight code in front of `rest`. */
  lemma Straight(lay: Lay, code: seq<Ins>, c: Conf, seg: seq<Ins>, rest: seq<Ins>, end: nat) returns (d: Conf)
    requires Here(code, c, seg + rest, end) && AllPure(seg)
    ensures d == After(c, |seg|, Run(lay, seg, c.s)) && Leads(lay, code, c, d) && Here(code, d, rest, end)
  {
    hide Leads, Run, At;
    AtSplit(code, c.pc, seg, rest);
    Through(lay, code, c, seg);
    d := After(c, |seg|, Run(lay, seg, c.s));
  }
  /** One access in front of `rest`. */
  lemma Access(lay: Lay, code: seq<Ins>, c: Conf, i: Ins, rest: seq<Ins>, end: nat, s: Mach) returns (d: Conf)
    requires Here(code, c, [i] + rest, end) && Effect(lay, i, c.s) == Sh4.Some(s)
    ensures d == After(c, 1, s) && Leads(lay, code, c, d) && Here(code, d, rest, end)
  {
    hide Leads, At;
    AtSplit(code, c.pc, [i], rest); AtIndex(code, c.pc, [i], 0);
    d := After(c, 1, s);
    One(lay, code, c, d);
  }
  lemma Later(code: seq<Ins>, pc: nat, rest: seq<Ins>, k: nat)
    requires At(code, pc, rest) && k <= |rest|
    ensures At(code, pc + k, rest[k..])
  {
    assert rest == rest[..k] + rest[k..];
    AtSplit(code, pc, rest[..k], rest[k..]);
  }
  lemma NextCond(lay: Lay, code: seq<Ins>, c: Conf, onT: bool, k: nat)
    requires c.pc + 1 + k <= |code| && code[c.pc] == if onT then Bt(k - 1) else Bf(k - 1)
    ensures Next(lay, code, c) == Sh4.Some(After(c, if c.s.t == onT then 1 + k else 1, c.s))
  { hide Effect; }
  lemma NextBra(lay: Lay, code: seq<Ins>, c: Conf, k: nat)
    requires c.pc + 2 + k <= |code| && code[c.pc] == Bra(k) && code[c.pc + 1] == Nop
    ensures Next(lay, code, c) == Sh4.Some(After(c, 2 + k, c.s))
  { hide Effect; }
  /** A conditional branch over k instructions. */
  lemma Skip(lay: Lay, code: seq<Ins>, c: Conf, onT: bool, k: nat, rest: seq<Ins>, end: nat) returns (d: Conf)
    requires k <= |rest| && Here(code, c, [if onT then Bt(k - 1) else Bf(k - 1)] + rest, end)
    ensures var j := if c.s.t == onT then k else 0;
      d == After(c, 1 + j, c.s) && Leads(lay, code, c, d) && Here(code, d, rest[j..], end)
  {
    hide Leads, Next, At;
    var b := if onT then Bt(k - 1) else Bf(k - 1);
    AtSplit(code, c.pc, [b], rest); AtIndex(code, c.pc, [b], 0);
    var j := if c.s.t == onT then k else 0;
    Later(code, c.pc + 1, rest, j); AtEnd(code, c.pc + 1, rest);
    NextCond(lay, code, c, onT, k);
    d := After(c, 1 + j, c.s);
    One(lay, code, c, d);
  }
  lemma AtEnd(code: seq<Ins>, pc: nat, seg: seq<Ins>) requires At(code, pc, seg) ensures pc + |seg| <= |code| {}
  /** An unconditional branch over k instructions. */
  lemma Over(lay: Lay, code: seq<Ins>, c: Conf, k: nat, rest: seq<Ins>, end: nat) returns (d: Conf)
    requires k <= |rest| && Here(code, c, [Bra(k), Nop] + rest, end)
    ensures d == After(c, 2 + k, c.s) && Leads(lay, code, c, d) && Here(code, d, rest[k..], end)
  {
    hide Leads, Next, At;
    AtSplit(code, c.pc, [Bra(k), Nop], rest);
    AtIndex(code, c.pc, [Bra(k), Nop], 0); AtIndex(code, c.pc, [Bra(k), Nop], 1);
    Later(code, c.pc + 2, rest, k); AtEnd(code, c.pc + 2, rest);
    NextBra(lay, code, c, k);
    d := After(c, 2 + k, c.s);
    One(lay, code, c, d);
  }
}
