/** The shared block-transfer routine of sh4g_fastmem_emit_block_routine and the call site that
    uses it, run on the SH-4A. */
module BlockRoutine {
  import opened Words
  import opened Guest
  import opened GuestBus
  import opened Sh4Mem
  import opened Blocks
  import opened BlockCode
  import Sh4

  // ---- the emitted code ------------------------------------------------------------------

  /** sh4g_fastmem_block_params. */
  function Params(op: Opc): nat {
    op.list + 0x1_0000 * Count(op.list) + if WritesBack(op) then 0x100_0000 * (4 * op.rn) else 0
  }
  /** A conditional branch to the slow path behind `rest`. */
  function Leave(onT: bool, rest: seq<Ins>): seq<Ins> { [if onT then Bt(|rest| - 1) else Bf(|rest| - 1)] + rest }

  /** The site's last literal, 24 bytes above the return address. */
  function Literal(n: Reg, rest: seq<Ins>): seq<Ins> { [StsPr(n)] + ([LdDisp(n, 24, n)] + rest) }
  function CountField(): seq<Ins> { [Mov(R2, R0), Shlr16(R0), AndI(0x1F), Mov(R0, R2)] }
  function Aligned4(): seq<Ins> { [Mov(R1, R0), TstI(3)] }
  function LastByte(): seq<Ins> { [Mov(R2, R3), Shll2(R3), AddI(-1, R3), Add(R1, R3)] }
  function SamePage(): seq<Ins> { [Mov(R1, R0), MovI(-15, R4), Shld(R4, R0), Shld(R4, R3), CmpEq(R0, R3)] }
  function Bound(): seq<Ins> { [Const(0x1000_0000, R3), CmpHs(R3, R1)] }
  function Region12(): seq<Ins> { [Mov(R1, R0), Shlr16(R0), Shlr8(R0), Mov(R0, R12)] }
  function PageIndex(table: Word): seq<Ins> { [Mov(R1, R0), MovI(-15, R4), Shld(R4, R0), Shll2(R0), Const(table, R3)] }
  function InPage(): seq<Ins> { [Mov(R1, R0), Shll16(R0), Shll(R0), Shlr16(R0), Shlr(R0)] }
  function HostAligned(): seq<Ins> { [Mov(R0, R4), Add(R3, R0), TstI(3), Mov(R4, R0)] }

  function IsVram(): seq<Ins> { [Mov(R1, R7), Shlr16(R7), Shlr8(R7), MovI(6, R4), CmpEq(R4, R7)] }
  function IsEwram(): seq<Ins> { [Mov(R3, R7), Mov(R1, R5), Shlr16(R5), Shlr8(R5), MovI(2, R4), CmpEq(R4, R5)] }
  function TagPage(): seq<Ins> {
    IsEwram() + [Bf(3), Const(0x4_0000, R4), Add(R4, R7), Bra(2), Nop, Const(0xFFFF_8000, R4), Add(R4, R7)]
  }
  /** Counts R2 down over the words. */
  function ScanLoop(rest: seq<Ins>): seq<Ins> {
    [LdL(R7, R5)] + ([Tst(R5, R5)] + Leave(false, [AddI(4, R0), Dt(R2)] + ([Bf(-7)] + ([Mov(R4, R0)] + rest))))
  }
  function Scan(rest: seq<Ins>): seq<Ins> {
    IsVram() + ([Bt(|TagPage()| + 7)] + (TagPage() + ([Mov(R0, R4)] + ScanLoop(rest))))
  }

  function Swaps(): seq<Ins> { [SwpB(R7, R0), SwpW(R0, R0), SwpB(R0, R7)] }
  function Body(load: bool, rest: seq<Ins>): seq<Ins> {
    if load then [Mov(R5, R0)] + ([LdL(R3, R7)] + (Swaps() + ([Mov(R4, R0)] + ([StGR0(R7)] + ([AddI(4, R5)] + rest)))))
    else [Mov(R4, R0)] + ([LdGR0(R7)] + (Swaps() + ([Mov(R5, R0)] + ([StL(R7, R3)] + ([AddI(4, R5)] + rest)))))
  }
  /** Shifts the register list out of R2 while R4 moves over the register file, R5 over the page. */
  function TransferLoop(load: bool, rest: seq<Ins>): seq<Ins> {
    [Shlr(R2)] + ([Bf(7)] + Body(load, [AddI(4, R4), Tst(R2, R2)] + ([Bf(-14)] + rest)))
  }
  function Transfer(load: bool, rest: seq<Ins>): seq<Ins> {
    Literal(R2, [ExtuW(R2, R2), Mov(R0, R5), MovI(0, R4)] + TransferLoop(load, rest))
  }
  function WriteBack(wb: bool, rest: seq<Ins>): seq<Ins> {
    if wb then Literal(R0, [Shlr16(R0), Shlr8(R0)] + ([StGR0(R6)] + rest)) else rest
  }
  function LoadCharge(rest: seq<Ins>): seq<Ins> {
    [Mov(R12, R0), Shll(R0), AddI(1, R0), LdVec(R3)]
    + ([LdB(R3, R4)] + ([ExtuB(R4, R4), MulL(R4, R2), StsMacl(R4), Sub(R4, R13)] + rest))
  }
  /** EWRAM words cost 6, IWRAM words 1, VRAM words 2. */
  function StoreCharge(rest: seq<Ins>): seq<Ins> {
    var vram := [Mov(R2, R0), Shll(R0), Sub(R0, R13)];
    var ewram := [MovI(6, R0), MulL(R0, R2), StsMacl(R0), Sub(R0, R13)];
    [Mov(R12, R0), CmpEqI(2)]
    + ([Bt(4)] + ([CmpEqI(6)] + ([Bt(8)] + ([Sub(R2, R13)] + ([Bra(9),
        Nop] + (ewram + ([Bra(3), Nop] + (vram + rest))))))))
  }
  function Charge(load: bool): seq<Ins> {
    Literal(R2, CountField() + if load then LoadCharge([Rts, Nop]) else StoreCharge([Rts, Nop]))
  }
  function Work(load: bool, wb: bool): seq<Ins> { Transfer(load, WriteBack(wb, Charge(load))) }

  function FromPage(load: bool, wb: bool, table: Word): seq<Ins> {
    PageIndex(table)
    + ([LdL(R3, R3)]
    + ([Tst(R3, R3)]
    + Leave(true, InPage() + if load then HostAligned() + Leave(false, Work(load, wb)) else Scan(Work(load, wb)))))
  }
  function FromRegion(load: bool, wb: bool, table: Word): seq<Ins> {
    if load then [Tst(R0, R0)] + Leave(true, FromPage(load, wb, table))
    else [CmpEqI(6)] + ([Bt(2)] + (InRam() + Leave(false, FromPage(load, wb, table))))
  }
  /** Everything before the slow path. */
  function Main(load: bool, wb: bool, table: Word): seq<Ins> {
    var region := Region12() + FromRegion(load, wb, table);
    Literal(R2, CountField() + (Aligned4() + Leave(false,
        LastByte() + (SamePage() + Leave(false, Bound() + Leave(true, region))))))
  }

  // ---- the site --------------------------------------------------------------------------------

  function SiteHead(op: Opc): seq<Ins> {
    [LoadGuest(op.rn, R1)] + (if WritesBack(op) then [Mov(R1, R6), AddI(BaseOffset(op), R6)] else [])
    + [Shlr2(R1), Shll2(R1), AddI(Offset(op), R1)]
  }
  /** Guest r0 is published before the call and taken back after it. */
  function Site(op: Opc): seq<Ins> { SiteHead(op) + [StG(R11, 0), Jsr(0), Nop, LdG(0, R11)] }
  /** The routine, its slow path, then one call site. */
  function Program(op: Opc, table: Word): seq<Ins> { Main(op.load, WritesBack(op), table) + [Slow] + Site(op) }

  // ---- small steps -------------------------------------------------------------------------------

  lemma Leaving(lay: Lay, code: seq<Ins>, c: Conf, onT: bool, rest: seq<Ins>, slow: nat) returns (d: Conf)
    requires Here(code, c, Leave(onT, rest), slow)
    ensures Leads(lay, code, c, d) && d.s == c.s && d.pr == c.pr
    ensures if c.s.t == onT then d.pc == slow else Here(code, d, rest, slow)
  {
    hide Leads, At;
    d := Skip(lay, code, c, onT, |rest|, rest, slow);
    assert rest[0..] == rest;
  }
  lemma TupleWord(lay: Lay, mem: seq<Byte>)
    requires Bounds(lay, |mem|)
    ensures WordAt(lay, mem, lay.tuple + 24) == Sh4.Some(lay.params)
  {}
  lemma Literally(lay: Lay, code: seq<Ins>, c: Conf, n: Reg, rest: seq<Ins>, end: nat) returns (d: Conf)
    requires Here(code, c, Literal(n, rest), end) && Bounds(lay, |c.s.mem|) && n in {R0, R2}
    ensures Leads(lay, code, c, d) && Here(code, d, rest, end) && d == After(c, 2, Set(c.s, n, lay.params))
  {
    hide Here, Leads, Run, WordAt;
    TupleWord(lay, c.s.mem);
    var c1 := Straight(lay, code, c, [StsPr(n)], [LdDisp(n, 24, n)] + rest, end);
    Run1(lay, StsPr(n), c.s);
    d := Access(lay, code, c1, LdDisp(n, 24, n), rest, end, Set(c.s, n, lay.params));
    Then(lay, code, c, c1, d);
  }
  lemma Lists(op: Opc, p: nat)
    requires Native(op) && p == Params(op)
    ensures p % 0x1_0000 == op.list && p / 0x1_0000 % 0x20 == Count(op.list) && p < 0x1_0000_0000
    ensures WritesBack(op) ==> p / 0x1_0000 / 0x100 == 4 * op.rn
  {
    Accepted(op);
    var n: int := Count(op.list);
    var q: int := if WritesBack(op) then 4 * op.rn else 0;
    ModUnique(p, 0x1_0000, n + 0x100 * q, op.list);
    ModUnique(p / 0x1_0000, 0x20, 8 * q, n);
    ModUnique(p / 0x1_0000, 0x100, q, n);
    hide Count, Has;
  }
  lemma CountFieldRun(lay: Lay, s: Mach)
    ensures var n := s.r2 / 0x1_0000 % 0x20; Run(lay, CountField(), s) == s.(r0 := n, r2 := n)
  {
    hide Run, AndW;
    Run4(lay, Mov(R2, R0), Shlr16(R0), AndI(0x1F), Mov(R0, R2), s);
    AndByte(s.r2 / 0x1_0000);
  }
  lemma Aligned4Run(lay: Lay, s: Mach)
    ensures Run(lay, Aligned4(), s) == s.(r0 := s.r1, t := s.r1 % 4 == 0)
  {
    hide Run, AndW;
    Run2(lay, Mov(R1, R0), TstI(3), s);
    AndThree(s.r1);
  }
  lemma LastByteRun(lay: Lay, s: Mach)
    requires 0 < s.r2 <= 15
    ensures Run(lay, LastByte(), s) == s.(r3 := Sh4.Lo(s.r1 + 4 * s.r2 - 1))
  {
    hide Run, Sh4.Lo;
    Run4(lay, Mov(R2, R3), Shll2(R3), AddI(-1, R3), Add(R1, R3), s);
    FourTimes(s.r2, s.r1);
  }
  lemma FourTimes(n: Word, x: Word)
    requires 0 < n <= 15
    ensures AddW(AddW(Sh4.Shl2(n), Sh4.SExt8(-1)), x) == Sh4.Lo(x + 4 * n - 1)
  {}
  lemma SamePageRun(lay: Lay, s: Mach)
    ensures Run(lay, SamePage(), s)
      == s.(r0 := s.r1 / 0x8000, r4 := Sh4.SExt8(-15), r3 := s.r3 / 0x8000, t := s.r1 / 0x8000 == s.r3 / 0x8000)
  {
    hide Run, Sh4.SExt8, Sh4.ShldOf;
    Run5(lay, Mov(R1, R0), MovI(-15, R4), Shld(R4, R0), Shld(R4, R3), CmpEq(R0, R3), s);
    PageOf(s.r1); PageOf(s.r3);
  }
  lemma BoundRun(lay: Lay, s: Mach)
    ensures Run(lay, Bound(), s) == s.(r3 := 0x1000_0000, t := s.r1 >= 0x1000_0000)
  { hide Run; Run2(lay, Const(0x1000_0000, R3), CmpHs(R3, R1), s); }
  lemma Region12Run(lay: Lay, s: Mach)
    ensures Run(lay, Region12(), s) == s.(r0 := Region(s.r1), r12 := Region(s.r1))
  {
    hide Run;
    Run4(lay, Mov(R1, R0), Shlr16(R0), Shlr8(R0), Mov(R0, R12), s);
    RegionOf(s.r1);
  }
  lemma PageIndexRun(lay: Lay, s: Mach, table: Word)
    requires s.r1 < 0x1000_0000
    ensures Run(lay, PageIndex(table), s) == s.(r0 := 4 * (s.r1 / 0x8000), r4 := Sh4.SExt8(-15), r3 := table)
  {
    hide Run, Sh4.SExt8, Sh4.ShldOf;
    Run5(lay, Mov(R1, R0), MovI(-15, R4), Shld(R4, R0), Shll2(R0), Const(table, R3), s);
    PageOf(s.r1);
  }
  lemma InPageRun(lay: Lay, s: Mach)
    ensures Run(lay, InPage(), s) == s.(r0 := s.r1 % 0x8000, t := Run(lay, InPage(), s).t)
  {
    hide Run, Sh4.Shl1, Sh4.Lo;
    Run5(lay, Mov(R1, R0), Shll16(R0), Shll(R0), Shlr16(R0), Shlr(R0), s);
    LowOf(s.r1);
  }
  lemma HostAlignedRun(lay: Lay, s: Mach)
    ensures Run(lay, HostAligned(), s) == s.(r4 := s.r0, t := AddW(s.r0, s.r3) % 4 == 0)
  {
    hide Run, AndW, AddW;
    Run4(lay, Mov(R0, R4), Add(R3, R0), TstI(3), Mov(R4, R0), s);
    AndThree(AddW(s.r0, s.r3));
  }
  lemma IsVramRun(lay: Lay, s: Mach)
    ensures Run(lay, IsVram(), s) == s.(r7 := Region(s.r1), r4 := 6, t := Region(s.r1) == 6)
  {
    hide Run;
    Run5(lay, Mov(R1, R7), Shlr16(R7), Shlr8(R7), MovI(6, R4), CmpEq(R4, R7), s);
    RegionOf(s.r1);
  }
  lemma IsEwramRun(lay: Lay, s: Mach)
    ensures Run(lay, IsEwram(), s) == s.(r7 := s.r3, r5 := Region(s.r1), r4 := 2, t := Region(s.r1) == 2)
  {
    hide Run, Do;
    var a, b := [Mov(R3, R7), Mov(R1, R5), Shlr16(R5)], [Shlr8(R5), MovI(2, R4), CmpEq(R4, R5)];
    assert IsEwram() == a + b;
    RunAppend(lay, a, b, s);
    EwramHigh(lay, s); EwramLow(lay, s.(r7 := s.r3, r5 := s.r1 / 0x1_0000));
    RegionOf(s.r1);
  }
  lemma EwramHigh(lay: Lay, s: Mach)
    ensures Run(lay, [Mov(R3, R7), Mov(R1, R5), Shlr16(R5)], s) == s.(r7 := s.r3, r5 := s.r1 / 0x1_0000)
  { hide Run; Run3(lay, Mov(R3, R7), Mov(R1, R5), Shlr16(R5), s); }
  lemma EwramLow(lay: Lay, s: Mach)
    ensures Run(lay, [Shlr8(R5), MovI(2, R4), CmpEq(R4, R5)], s)
      == s.(r5 := s.r5 / 0x100, r4 := 2, t := s.r5 / 0x100 == 2)
  { hide Run; Run3(lay, Shlr8(R5), MovI(2, R4), CmpEq(R4, R5), s); }

  /** A branch back to where the loop began. */
  lemma Back(lay: Lay, code: seq<Ins>, c: Conf, k: nat, rest: seq<Ins>, end: nat) returns (d: Conf)
    requires k <= c.pc && Here(code, c, [Bf(0 - k - 2)] + rest, end)
    ensures Leads(lay, code, c, d) && d.s == c.s && d.pr == c.pr
    ensures if c.s.t then Here(code, d, rest, end) else d.pc == c.pc - k
  {
    hide Leads, Sh4Mem.Next, At;
    AtSplit(code, c.pc, [Bf(0 - k - 2)], rest); AtIndex(code, c.pc, [Bf(0 - k - 2)], 0); AtEnd(code, c.pc + 1, rest);
    d := if c.s.t then After(c, 1, c.s) else c.(pc := c.pc - k);
    NextBack(lay, code, c, k);
    One(lay, code, c, d);
  }
  lemma NextBack(lay: Lay, code: seq<Ins>, c: Conf, k: nat)
    requires k <= c.pc < |code| && code[c.pc] == Bf(0 - k - 2)
    ensures Sh4Mem.Next(lay, code, c) == Sh4.Some(if c.s.t then After(c, 1, c.s) else c.(pc := c.pc - k))
  { hide Effect; }

  // ---- the scan loop -------------------------------------------------------------------------

  lemma DownRun(lay: Lay, s: Mach)
    requires s.r0 <= 0x1_0000 && s.r2 > 0
    ensures Run(lay, [AddI(4, R0), Dt(R2)], s) == s.(r0 := s.r0 + 4, r2 := s.r2 - 1, t := s.r2 == 1)
  { hide Run; Run2(lay, AddI(4, R0), Dt(R2), s); }
  lemma TestRun(lay: Lay, s: Mach)
    ensures Run(lay, [Tst(R5, R5)], s) == s.(t := s.r5 == 0)
  { hide Run, AndW; Run1(lay, Tst(R5, R5), s); TestSelf(s.r5); }
  /** What the scan leaves alone. */
  ghost predicate Unscanned(s: Mach, d: Mach) {
    Kept(s, d) && d.r1 == s.r1 && d.r3 == s.r3 && d.r6 == s.r6 && d.r12 == s.r12
  }

  function ScanTail(rest: seq<Ins>): seq<Ins> { [Bf(-7)] + ([Mov(R4, R0)] + rest) }
  /** One tag word, up to the branch that closes the loop or to the slow path. */
  lemma ScanPass(lay: Lay, code: seq<Ins>, c: Conf, e: Env, rest: seq<Ins>, slow: nat, a: nat) returns (d: Conf)
    requires Here(code, c, ScanLoop(rest), slow) && Bounds(lay, |c.s.mem|) && TagsIn(e, c.s.mem)
    requires 0 < c.s.r2 <= 15 && a % 4 == 0 && Region(a) in {2, 3} && c.s.r7 + c.s.r0 == TagAt(e, a) && c.s.r0 <= 0x8000
    ensures Leads(lay, code, c, d) && Unscanned(c.s, d.s) && d.pr == c.pr && d.s.r4 == c.s.r4 && d.s.r7 == c.s.r7
    ensures |e.etags| == 0x4_0000 && |e.itags| == 0x8000
    ensures if Tagged(e, a) then d.pc == slow
            else Here(code, d, ScanTail(rest), slow) && d.pc == c.pc + 5
                 && d.s.r0 == c.s.r0 + 4 && d.s.r2 == c.s.r2 - 1 && d.s.t == (c.s.r2 == 1)
  {
    hide At, Leads, Run, Tagged, Raw, WordAt, AddW, TagAt, Region, TagsIn, Do;
    TagLengths(e, c.s.mem); TagClear(e, c.s.mem, a); AddSmall(c.s.r0, c.s.r7);
    var t := TagAt(e, a);
    RamWord(lay, c.s.mem, t);
    var more := [AddI(4, R0), Dt(R2)] + ScanTail(rest);
    var c1 := Access(lay, code, c, LdL(R7, R5), [Tst(R5, R5)] + Leave(false, more), slow,
        c.s.(r5 := Raw(c.s.mem[t..t + 4])));
    var c2 := Straight(lay, code, c1, [Tst(R5, R5)], Leave(false, more), slow);
    TestRun(lay, c1.s);
    d := Leaving(lay, code, c2, false, more, slow);
    Then(lay, code, c, c1, c2); Then(lay, code, c, c2, d);
    if !Tagged(e, a) {
      var c4 := Straight(lay, code, d, [AddI(4, R0), Dt(R2)], ScanTail(rest), slow);
      DownRun(lay, d.s);
      Then(lay, code, c, d, c4);
      LeaveLength(more);
      d := c4;
    }
  }
  lemma {:induction false} Scanned(lay: Lay, code: seq<Ins>, c: Conf, e: Env, rest: seq<Ins>, slow: nat, a: nat)
    returns (d: Conf)
    requires Here(code, c, ScanLoop(rest), slow) && Bounds(lay, |c.s.mem|) && TagsIn(e, c.s.mem)
    requires 0 < c.s.r2 <= 15 && a % 4 == 0 && Region(a) in {2, 3} && a % 0x8000 + 4 * c.s.r2 <= 0x8000
    requires c.s.r7 + c.s.r0 == TagAt(e, a) && c.s.r0 + 4 * c.s.r2 <= 0x8000
    ensures Leads(lay, code, c, d) && Unscanned(c.s, d.s) && d.pr == c.pr
    ensures |e.etags| == 0x4_0000 && |e.itags| == 0x8000
    ensures if Untagged(e, a, c.s.r2) then Here(code, d, rest, slow) && d.s.r0 == c.s.r4 else d.pc == slow
    decreases c.s.r2
  {
    hide At, Leads, Run, Tagged, TagAt, Region, TagsIn, Do, ScanLoop;
    d := ScanPass(lay, code, c, e, rest, slow, a);
    if !Tagged(e, a) {
      var c5 := Back(lay, code, d, 5, [Mov(R4, R0)] + rest, slow);
      Then(lay, code, c, d, c5);
      if d.s.t {
        d := Straight(lay, code, c5, [Mov(R4, R0)], rest, slow);
        CopyRun(lay, c5.s, R4, R0);
      } else {
        TagNext(e, a);
        d := Scanned(lay, code, c5, e, rest, slow, a + 4);
      }
      Then(lay, code, c, c5, d);
    }
  }
  lemma LeaveLength(rest: seq<Ins>) ensures |Leave(false, rest)| == 1 + |rest| {}
  lemma CopyRun(lay: Lay, s: Mach, m: Reg, n: Reg)
    ensures Run(lay, [Mov(m, n)], s) == Set(s, n, Get(s, m))
  { hide Run, Get, Set; Run1(lay, Mov(m, n), s); }

  // ---- the transfer loop -------------------------------------------------------------------------

  /** The register file published, memory shown. */
  ghost predicate Filed(s: Mach, m: M) { s.file == m.r && s.mem == m.mem }
  /** What the loops leave alone. */
  ghost predicate Steady(s: Mach, d: Mach) {
    d.r1 == s.r1 && d.r3 == s.r3 && d.r6 == s.r6 && d.r8 == s.r8 && d.r11 == s.r11 && d.r12 == s.r12 && d.r13 == s.r13
  }

  lemma SwapsRun(lay: Lay, s: Mach)
    ensures Run(lay, Swaps(), s) == s.(r0 := SwapW(SwapB(s.r7)), r7 := Reversed(s.r7))
  { hide Run, SwapB, SwapW; Run3(lay, SwpB(R7, R0), SwpW(R0, R0), SwpB(R0, R7), s); }
  lemma Plus4(lay: Lay, s: Mach, n: Reg)
    requires Get(s, n) <= 0x1_0000
    ensures Run(lay, [AddI(4, n)], s) == Set(s, n, Get(s, n) + 4)
  { hide Run, Get, Set; Run1(lay, AddI(4, n), s); }

  lemma LoadBody(lay: Lay, code: seq<Ins>, c: Conf, i: nat, rest: seq<Ins>, end: nat, m: M, at: nat) returns (d: Conf)
    requires Here(code, c, Body(true, rest), end) && Filed(c.s, m) && i < 15 && Bounds(lay, |m.mem|) && c.s.r4 == 4 * i
    requires at == c.s.r3 + c.s.r5 && at % 4 == 0 && at + 4 <= |m.mem| && c.s.r5 <= 0x1_0000
    ensures Leads(lay, code, c, d) && Here(code, d, rest, end) && d.pc == c.pc + 8 && d.pr == c.pr
    ensures Filed(d.s, FastOne(true, m, i, at))
    ensures Steady(c.s, d.s) && d.s.r2 == c.s.r2 && d.s.r4 == c.s.r4 && d.s.r5 == c.s.r5 + 4
  {
    hide Here, Leads, Run, AddW, Reversed, Raw, WordAt, SwapB, SwapW, Do;
    var v := Raw(m.mem[at..at + 4]);
    RamWord(lay, m.mem, at); AddSmall(c.s.r5, c.s.r3);
    var t3 := [AddI(4, R5)] + rest;
    var t2 := [Mov(R4, R0)] + ([StGR0(R7)] + t3);
    var c1 := Straight(lay, code, c, [Mov(R5, R0)], [LdL(R3, R7)] + (Swaps() + t2), end);
    CopyRun(lay, c.s, R5, R0);
    var c2 := Access(lay, code, c1, LdL(R3, R7), Swaps() + t2, end, c1.s.(r7 := v));
    var c3 := Straight(lay, code, c2, Swaps(), t2, end);
    SwapsRun(lay, c2.s);
    var c4 := Straight(lay, code, c3, [Mov(R4, R0)], [StGR0(R7)] + t3, end);
    CopyRun(lay, c3.s, R4, R0);
    var c5 := Access(lay, code, c4, StGR0(R7), t3, end, c4.s.(file := m.r[i := Reversed(v)]));
    d := Straight(lay, code, c5, [AddI(4, R5)], rest, end);
    Plus4(lay, c5.s, R5);
    Then(lay, code, c, c1, c2); Then(lay, code, c, c2, c3); Then(lay, code, c, c3, c4); Then(lay, code, c, c4, c5);
    Then(lay, code, c, c5, d);
  }
  lemma StoreWord(lay: Lay, s: Mach, m: M, i: nat, at: nat)
    requires s.mem == m.mem && s.file == m.r && i < 16 && s.r7 == Reversed(m.r[i]) && s.r0 + s.r3 == at && at % 4 == 0
    requires at + 4 <= |m.mem| && at < 0x1_0000_0000
    ensures Effect(lay, StL(R7, R3), s) == Sh4.Some(s.(mem := FastOne(false, m, i, at).mem))
    ensures Filed(s.(mem := FastOne(false, m, i, at).mem), FastOne(false, m, i, at))
  { hide RawBytes, Put, Reversed; }
  lemma FileWord(lay: Lay, s: Mach, i: nat)
    requires i < 16 && s.r0 == 4 * i
    ensures Effect(lay, LdGR0(R7), s) == Sh4.Some(s.(r7 := s.file[i]))
  {}
  lemma StoreBody(lay: Lay, code: seq<Ins>, c: Conf, i: nat, rest: seq<Ins>, end: nat, m: M, at: nat) returns (d: Conf)
    requires Here(code, c, Body(false, rest), end) && Filed(c.s, m) && i < 15 && Bounds(lay, |m.mem|) && c.s.r4 == 4 * i
    requires at == c.s.r3 + c.s.r5 && at % 4 == 0 && at + 4 <= |m.mem| && c.s.r5 <= 0x1_0000
    ensures Leads(lay, code, c, d) && Here(code, d, rest, end) && d.pc == c.pc + 8 && d.pr == c.pr
    ensures Filed(d.s, FastOne(false, m, i, at))
    ensures Steady(c.s, d.s) && d.s.r2 == c.s.r2 && d.s.r4 == c.s.r4 && d.s.r5 == c.s.r5 + 4
  {
    hide Here, Leads, Run, Reversed, SwapB, SwapW, Do, Effect, FastOne;
    var t3 := [AddI(4, R5)] + rest;
    var t2 := [Mov(R5, R0)] + ([StL(R7, R3)] + t3);
    var c1 := Straight(lay, code, c, [Mov(R4, R0)], [LdGR0(R7)] + (Swaps() + t2), end);
    CopyRun(lay, c.s, R4, R0); FileWord(lay, c1.s, i);
    var c2 := Access(lay, code, c1, LdGR0(R7), Swaps() + t2, end, c1.s.(r7 := m.r[i]));
    var c3 := Straight(lay, code, c2, Swaps(), t2, end);
    SwapsRun(lay, c2.s);
    var c4 := Straight(lay, code, c3, [Mov(R5, R0)], [StL(R7, R3)] + t3, end);
    CopyRun(lay, c3.s, R5, R0); StoreWord(lay, c4.s, m, i, at);
    var c5 := Access(lay, code, c4, StL(R7, R3), t3, end, c4.s.(mem := FastOne(false, m, i, at).mem));
    d := Straight(lay, code, c5, [AddI(4, R5)], rest, end);
    Plus4(lay, c5.s, R5);
    Then(lay, code, c, c1, c2); Then(lay, code, c, c2, c3); Then(lay, code, c, c3, c4); Then(lay, code, c, c4, c5);
    Then(lay, code, c, c5, d);
  }
  lemma ShiftRun(lay: Lay, s: Mach)
    ensures Run(lay, [Shlr(R2)], s) == s.(r2 := s.r2 / 2, t := s.r2 % 2 == 1)
  { hide Run; Run1(lay, Shlr(R2), s); }
  lemma StepRun(lay: Lay, s: Mach)
    requires s.r4 <= 64
    ensures Run(lay, [AddI(4, R4), Tst(R2, R2)], s) == s.(r4 := s.r4 + 4, t := s.r2 == 0)
  { hide Run, AndW; Run2(lay, AddI(4, R4), Tst(R2, R2), s); TestSelf(s.r2); }

  /** One pass: a bit of the list, up to the branch that closes the loop. */
  lemma Pass(lay: Lay, code: seq<Ins>, c: Conf, load: bool, i: nat, rest: seq<Ins>, end: nat, m: M, at: nat)
    returns (d: Conf)
    requires Here(code, c, TransferLoop(load, rest), end) && Filed(c.s, m) && i < 15 && Bounds(lay, |m.mem|)
    requires c.s.r4 == 4 * i
    requires at == c.s.r3 + c.s.r5 && at % 4 == 0 && c.s.r5 <= 0x1_0000 && (c.s.r2 % 2 == 1 ==> at + 4 <= |m.mem|)
    ensures Leads(lay, code, c, d) && Here(code, d, [Bf(-14)] + rest, end) && d.pc == c.pc + 12 && d.pr == c.pr
    ensures Steady(c.s, d.s) && d.s.r2 == c.s.r2 / 2 && d.s.r4 == 4 * (i + 1) && d.s.t == (d.s.r2 == 0)
    ensures if c.s.r2 % 2 == 1 then Filed(d.s, FastOne(load, m, i, at)) && d.s.r5 == c.s.r5 + 4
            else Filed(d.s, m) && d.s.r5 == c.s.r5
  {
    hide Here, Leads, Run, Body, FastOne, Do;
    var tail := [AddI(4, R4), Tst(R2, R2)] + ([Bf(-14)] + rest);
    var body := Body(load, tail);
    BodyTail(load, tail);
    var c1 := Straight(lay, code, c, [Shlr(R2)], [Bf(7)] + body, end);
    ShiftRun(lay, c.s);
    assert [Bf(7)] + body == [if false then Bt(8 - 1) else Bf(8 - 1)] + body;
    var c2 := Skip(lay, code, c1, false, 8, body, end);
    assert body[0..] == body;
    Then(lay, code, c, c1, c2);
    if c1.s.t {
      var c3: Conf;
      if load {
        c3 := LoadBody(lay, code, c2, i, tail, end, m, at);
      } else {
        c3 := StoreBody(lay, code, c2, i, tail, end, m, at);
      }
      Then(lay, code, c, c2, c3);
      c2 := c3;
    }
    d := Straight(lay, code, c2, [AddI(4, R4), Tst(R2, R2)], [Bf(-14)] + rest, end);
    StepRun(lay, c2.s);
    Then(lay, code, c, c2, d);
  }
  lemma BodyTail(load: bool, rest: seq<Ins>)
    ensures |Body(load, rest)| == 8 + |rest| && Body(load, rest)[8..] == rest
  {
    var f := [AddI(4, R5)] + rest;
    var e := [if load then StGR0(R7) else StL(R7, R3)] + f;
    var d := [if load then Mov(R4, R0) else Mov(R5, R0)] + e;
    var c := Swaps() + d;
    var b := [if load then LdL(R3, R7) else LdGR0(R7)] + c;
    var a := if load then Mov(R5, R0) else Mov(R4, R0);
    Drop([AddI(4, R5)], rest, 0); Drop([e[0]], f, 1); Drop([d[0]], e, 2); Drop(Swaps(), d, 3); Drop([b[0]], c, 6);
    Drop([a], b, 7);
    assert Body(load, rest) == [a] + b;
  }
  lemma Drop(a: seq<Ins>, b: seq<Ins>, k: nat)
    requires k <= |b|
    ensures (a + b)[|a| + k..] == b[k..]
  {}

  /** The emitted loop is the transfer loop. */
  lemma {:induction false} Looped(lay: Lay, code: seq<Ins>, c: Conf, load: bool, i: nat, rest: seq<Ins>, end: nat, m: M,
                                  at: nat) returns (d: Conf)
    requires Here(code, c, TransferLoop(load, rest), end) && Filed(c.s, m) && Bounds(lay, |m.mem|) && c.s.r4 == 4 * i
    requires i <= 15 && 0 < c.s.r2 < Pow2(15 - i) && c.s.r5 + 4 * Count(c.s.r2) <= 0x8000
    requires at == c.s.r3 + c.s.r5 && at % 4 == 0 && at + 4 * Count(c.s.r2) <= |m.mem|
    ensures Leads(lay, code, c, d) && Here(code, d, rest, end) && d.pr == c.pr && Steady(c.s, d.s)
    ensures Filed(d.s, FastLoop(load, m, c.s.r2, i, at))
    decreases c.s.r2
  {
    hide Leads, At, TransferLoop, FastOne, Filed, Pow2, FastLoop, Count;
    var list := c.s.r2;
    LoopNext(load, m, list, i, at);
    var c1 := Pass(lay, code, c, load, i, rest, end, m, at);
    d := Back(lay, code, c1, 12, rest, end);
    Then(lay, code, c, c1, d);
    var m1, at1 := NextM(load, m, list, i, at), NextAt(list, at);
    if list / 2 != 0 {
      var d1 := Looped(lay, code, d, load, i + 1, rest, end, m1, at1);
      Then(lay, code, c, d, d1);
      d := d1;
    } else { FastEnd(load, m1, i + 1, at1); }
  }

  // ---- the scan as a whole ---------------------------------------------------------------------

  lemma TagOffset(lay: Lay, s: Mach, v: Word)
    ensures Run(lay, [Const(v, R4), Add(R4, R7)], s) == s.(r4 := v, r7 := AddW(s.r7, v))
  { hide Run, AddW; Run2(lay, Const(v, R4), Add(R4, R7), s); }
  lemma TagPaged(lay: Lay, code: seq<Ins>, c: Conf, rest: seq<Ins>, end: nat) returns (d: Conf)
    requires Here(code, c, TagPage() + rest, end)
    ensures Leads(lay, code, c, d) && Here(code, d, rest, end) && Unscanned(c.s, d.s) && d.pr == c.pr
    ensures d.s.r0 == c.s.r0 && d.s.r2 == c.s.r2
    ensures d.s.r7 == AddW(c.s.r3, if Region(c.s.r1) == 2 then 0x4_0000 else 0xFFFF_8000)
  {
    hide Here, Leads, Run, AddW, Region, Do;
    var low := [Const(0xFFFF_8000, R4), Add(R4, R7)] + rest;
    var both := [Const(0x4_0000, R4), Add(R4, R7)] + ([Bra(2), Nop] + low);
    assert TagPage() + rest == IsEwram() + ([Bf(4 - 1)] + both);
    var c1 := Straight(lay, code, c, IsEwram(), [Bf(4 - 1)] + both, end);
    IsEwramRun(lay, c.s);
    var c2 := Skip(lay, code, c1, false, 4, both, end);
    assert both[0..] == both && both[4..] == low && low[2..] == rest;
    Then(lay, code, c, c1, c2);
    if c1.s.t {
      var c3 := Straight(lay, code, c2, [Const(0x4_0000, R4), Add(R4, R7)], [Bra(2), Nop] + low, end);
      TagOffset(lay, c2.s, 0x4_0000);
      d := Over(lay, code, c3, 2, low, end);
      Then(lay, code, c, c2, c3); Then(lay, code, c, c3, d);
    } else {
      d := Straight(lay, code, c2, [Const(0xFFFF_8000, R4), Add(R4, R7)], rest, end);
      TagOffset(lay, c2.s, 0xFFFF_8000);
      Then(lay, code, c, c2, d);
    }
  }
  lemma ScanTails(rest: seq<Ins>)
    ensures |TagPage()| == 13
    ensures var both := TagPage() + ([Mov(R0, R4)] + ScanLoop(rest));
      |both| == 21 + |rest| && both[21..] == rest
  {
    ThirteenOps(); ScanLoopTail(rest);
    hide TagPage, ScanLoop;
    Drop([Mov(R0, R4)], ScanLoop(rest), 7);
    Drop(TagPage(), [Mov(R0, R4)] + ScanLoop(rest), 8);
  }
  lemma ThirteenOps() ensures |TagPage()| == 13 {}
  lemma ScanLoopTail(rest: seq<Ins>)
    ensures |ScanLoop(rest)| == 7 + |rest| && ScanLoop(rest)[7..] == rest
  {
    var f := [Mov(R4, R0)] + rest;
    var e := [Bf(-7)] + f;
    var d := [AddI(4, R0), Dt(R2)] + e;
    var c := Leave(false, d);
    var b := [Tst(R5, R5)] + c;
    Drop([Mov(R4, R0)], rest, 0); Drop([Bf(-7)], f, 1); Drop([AddI(4, R0), Dt(R2)], e, 2); Drop([c[0]], d, 4);
    Drop([Tst(R5, R5)], c, 5); Drop([LdL(R7, R5)], b, 6);
  }
  lemma ScanDone(lay: Lay, code: seq<Ins>, c: Conf, e: Env, m: M, rest: seq<Ins>, slow: nat, a: Word) returns (d: Conf)
    requires Here(code, c, Scan(rest), slow) && Bounds(lay, |m.mem|) && Blocks.Valid(e, m) && TagsIn(e, m.mem)
    requires c.s.mem == m.mem
    requires Mapped(e, a) && c.s.r1 == a && c.s.r3 == e.pages[a / 0x8000] && c.s.r0 == a % 0x8000 && 0 < c.s.r2 <= 15
    requires a % 4 == 0 && a % 0x8000 + 4 * c.s.r2 <= 0x8000 && Region(a) in {2, 3, 6}
    ensures Leads(lay, code, c, d) && Unscanned(c.s, d.s) && d.pr == c.pr
    ensures |e.etags| == 0x4_0000 && |e.itags| == 0x8000
    ensures if Region(a) == 6 || Untagged(e, a, c.s.r2) then Here(code, d, rest, slow) && d.s.r0 == c.s.r0
            else d.pc == slow
  {
    hide Here, Leads, Run, AddW, Region, Do, Blocks.Valid, TagsIn, TagAt, Untagged, TagPage, ScanLoop;
    TagLengths(e, m.mem); ScanTails(rest);
    var loop := [Mov(R0, R4)] + ScanLoop(rest);
    var both := TagPage() + loop;
    var c1 := Straight(lay, code, c, IsVram(), [Bt(21 - 1)] + both, slow);
    IsVramRun(lay, c.s);
    assert both[0..] == both;
    var c2 := Skip(lay, code, c1, true, 21, both, slow);
    Then(lay, code, c, c1, c2);
    if Region(a) == 6 { d := c2; }
    else {
      var c3 := TagPaged(lay, code, c2, loop, slow);
      var c4 := Straight(lay, code, c3, [Mov(R0, R4)], ScanLoop(rest), slow);
      CopyRun(lay, c3.s, R0, R4);
      MappedRoom(e, m, a); TagBase(e, m, a);
      d := Scanned(lay, code, c4, e, rest, slow, a);
      Then(lay, code, c, c2, c3); Then(lay, code, c, c3, c4); Then(lay, code, c, c4, d);
    }
  }

  // ---- after the last guard --------------------------------------------------------------------

  lemma SetUpRun(lay: Lay, s: Mach)
    ensures Run(lay, [ExtuW(R2, R2), Mov(R0, R5), MovI(0, R4)], s) == s.(r2 := s.r2 % 0x1_0000, r5 := s.r0, r4 := 0)
  { hide Run; Run3(lay, ExtuW(R2, R2), Mov(R0, R5), MovI(0, R4), s); }
  lemma Transferring(lay: Lay, code: seq<Ins>, c: Conf, op: Opc, rest: seq<Ins>, end: nat, m: M, at: nat)
    returns (d: Conf)
    requires Here(code, c, Transfer(op.load, rest), end) && Filed(c.s, m) && Bounds(lay, |m.mem|) && Native(op)
    requires lay.params == Params(op)
    requires at == c.s.r3 + c.s.r0 && at % 4 == 0 && at + 4 * Count(op.list) <= |m.mem|
    requires c.s.r0 + 4 * Count(op.list) <= 0x8000
    ensures Leads(lay, code, c, d) && Here(code, d, rest, end) && d.pr == c.pr && Steady(c.s, d.s)
    ensures Filed(d.s, FastLoop(op.load, m, op.list, 0, at))
  {
    hide Here, Leads, Run, Do, Count, Has, FastLoop, TransferLoop, Pow2, Params;
    Lists(op, Params(op)); FastBits(op);
    var init := [ExtuW(R2, R2), Mov(R0, R5), MovI(0, R4)];
    var c1 := Literally(lay, code, c, R2, init + TransferLoop(op.load, rest), end);
    var c2 := Straight(lay, code, c1, init, TransferLoop(op.load, rest), end);
    SetUpRun(lay, c1.s);
    d := Looped(lay, code, c2, op.load, 0, rest, end, m, at);
    Then(lay, code, c, c1, c2); Then(lay, code, c, c2, d);
  }
  lemma FieldRun(lay: Lay, s: Mach)
    ensures Run(lay, [Shlr16(R0), Shlr8(R0)], s) == s.(r0 := s.r0 / 0x1_0000 / 0x100)
  { hide Run; Run2(lay, Shlr16(R0), Shlr8(R0), s); }
  lemma FileBase(lay: Lay, s: Mach, i: nat)
    requires i < 16 && s.r0 == 4 * i
    ensures Effect(lay, StGR0(R6), s) == Sh4.Some(s.(file := s.file[i := s.r6]))
  {}
  lemma WrittenBack(lay: Lay, code: seq<Ins>, c: Conf, op: Opc, rest: seq<Ins>, end: nat, m: M, base: Word)
    returns (d: Conf)
    requires Here(code, c, WriteBack(WritesBack(op), rest), end) && Filed(c.s, m) && Bounds(lay, |m.mem|) && Native(op)
    requires lay.params == Params(op)
    requires WritesBack(op) ==> c.s.r6 == AddW(base, Sh4.SExt8(BaseOffset(op)))
    ensures Leads(lay, code, c, d) && Here(code, d, rest, end) && d.pr == c.pr && Steady(c.s, d.s)
    ensures Filed(d.s, Based(op, m, base))
  {
    hide Here, Leads, Run, Do, Count, Has, AddW, Sh4.SExt8, BaseOffset, Effect, Params;
    if WritesBack(op) {
      Lists(op, Params(op));
      var st := [StGR0(R6)] + rest;
      var c1 := Literally(lay, code, c, R0, [Shlr16(R0), Shlr8(R0)] + st, end);
      var c2 := Straight(lay, code, c1, [Shlr16(R0), Shlr8(R0)], st, end);
      FieldRun(lay, c1.s); FileBase(lay, c2.s, op.rn);
      d := Access(lay, code, c2, StGR0(R6), rest, end, c2.s.(file := m.r[op.rn := c.s.r6]));
      Then(lay, code, c, c1, c2); Then(lay, code, c, c2, d);
    } else { d := c; Stay(lay, code, c); }
  }

  // ---- cycles ------------------------------------------------------------------------------------

  /** Registers, memory and the published file as they were. */
  ghost predicate Settled(s: Mach, d: Mach) { d.file == s.file && d.mem == s.mem && d.r8 == s.r8 && d.r11 == s.r11 }

  lemma CellOf(lay: Lay, s: Mach)
    requires s.r12 < 16
    ensures Run(lay, [Mov(R12, R0), Shll(R0), AddI(1, R0), LdVec(R3)], s)
      == s.(r0 := 2 * s.r12 + 1, r3 := lay.costs, t := false)
  {
    hide Run, Do;
    var b := [Shll(R0), AddI(1, R0), LdVec(R3)];
    assert [Mov(R12, R0), Shll(R0), AddI(1, R0), LdVec(R3)] == [Mov(R12, R0)] + b;
    RunAppend(lay, [Mov(R12, R0)], b, s);
    CopyRun(lay, s, R12, R0); CellRun(lay, s.(r0 := s.r12));
  }
  lemma TimesRun(lay: Lay, s: Mach)
    ensures var p := MulW(s.r2, s.r4 % 0x100);
      Run(lay, [ExtuB(R4, R4), MulL(R4, R2), StsMacl(R4), Sub(R4, R13)], s)
        == s.(r4 := p, macl := p, r13 := SubW(s.r13, p))
  { hide Run, MulW, SubW; Run4(lay, ExtuB(R4, R4), MulL(R4, R2), StsMacl(R4), Sub(R4, R13), s); }
  lemma LoadCharged(lay: Lay, code: seq<Ins>, c: Conf, e: Env, rest: seq<Ins>, end: nat) returns (d: Conf)
    requires Here(code, c, LoadCharge(rest), end) && c.s.r12 < 16 && 0 < c.s.r2 <= 15 && Costs(lay, e)
    requires Bounds(lay, |c.s.mem|)
    ensures Leads(lay, code, c, d) && Here(code, d, rest, end) && d.pr == c.pr && Settled(c.s, d.s)
    ensures d.s.r13 == Sh4.Lo(c.s.r13 - c.s.r2 * e.cost(c.s.r12))
  {
    hide Here, Leads, Run, AddW, Sh4.Lo, Costs, Do, MovB, MulW, SubW;
    var n, k := c.s.r2, c.s.r12;
    var times := [ExtuB(R4, R4), MulL(R4, R2), StsMacl(R4), Sub(R4, R13)];
    var c1 := Straight(lay, code, c, [Mov(R12, R0), Shll(R0), AddI(1, R0), LdVec(R3)], [LdB(R3, R4)] + (times + rest),
        end);
    CellOf(lay, c.s); CostByte(lay, e, c1.s.mem, k);
    var b := lay.ws(2 * k + 1);
    var c2 := Access(lay, code, c1, LdB(R3, R4), times + rest, end, c1.s.(r4 := MovB(b)));
    d := Straight(lay, code, c2, times, rest, end);
    TimesRun(lay, c2.s);
    MovBack(b); SmallProduct(n, b); SubLo(c.s.r13, n * b);
    Then(lay, code, c, c1, c2); Then(lay, code, c, c2, d);
  }

  lemma IsTwoRun(lay: Lay, s: Mach)
    ensures Run(lay, [Mov(R12, R0), CmpEqI(2)], s) == s.(r0 := s.r12, t := s.r12 == 2)
  { hide Run; Run2(lay, Mov(R12, R0), CmpEqI(2), s); }
  lemma IsSixRun(lay: Lay, s: Mach)
    ensures Run(lay, [CmpEqI(6)], s) == s.(t := s.r0 == 6)
  { hide Run; Run1(lay, CmpEqI(6), s); }
  lemma OnceRun(lay: Lay, s: Mach)
    ensures Run(lay, [Sub(R2, R13)], s) == s.(r13 := SubW(s.r13, s.r2))
  { hide Run, SubW; Run1(lay, Sub(R2, R13), s); }
  lemma SixRun(lay: Lay, s: Mach)
    requires s.r2 <= 15
    ensures Run(lay, [MovI(6, R0), MulL(R0, R2), StsMacl(R0), Sub(R0, R13)], s)
      == s.(r0 := 6 * s.r2, macl := 6 * s.r2, r13 := SubW(s.r13, 6 * s.r2))
  { hide Run, SubW; Run4(lay, MovI(6, R0), MulL(R0, R2), StsMacl(R0), Sub(R0, R13), s); }
  lemma TwiceRun(lay: Lay, s: Mach)
    requires s.r2 <= 15
    ensures Run(lay, [Mov(R2, R0), Shll(R0), Sub(R0, R13)], s)
      == s.(r0 := 2 * s.r2, t := false, r13 := SubW(s.r13, 2 * s.r2))
  { hide Run, SubW; Run3(lay, Mov(R2, R0), Shll(R0), Sub(R0, R13), s); }

  lemma StoreCharged(lay: Lay, code: seq<Ins>, c: Conf, rest: seq<Ins>, end: nat) returns (d: Conf)
    requires Here(code, c, StoreCharge(rest), end) && c.s.r2 <= 15
    ensures Leads(lay, code, c, d) && Here(code, d, rest, end) && d.pr == c.pr && Settled(c.s, d.s)
    ensures d.s.r13 == SubW(c.s.r13, if c.s.r12 == 2 then 6 * c.s.r2 else if c.s.r12 == 6 then 2 * c.s.r2 else c.s.r2)
  {
    hide Here, Leads, Run, SubW, Do;
    var twice, six := [Mov(R2, R0), Shll(R0), Sub(R0, R13)], [MovI(6, R0), MulL(R0, R2), StsMacl(R0), Sub(R0, R13)];
    var low := twice + rest;
    var mid := six + ([Bra(3), Nop] + low);
    var one := [Sub(R2, R13)] + ([Bra(9), Nop] + mid);
    var test := [CmpEqI(6)] + ([Bt(9 - 1)] + one);
    StoreTails(rest);
    var c1 := Straight(lay, code, c, [Mov(R12, R0), CmpEqI(2)], [Bt(5 - 1)] + test, end);
    IsTwoRun(lay, c.s);
    var c2 := Skip(lay, code, c1, true, 5, test, end);
    Then(lay, code, c, c1, c2);
    if c.s.r12 == 2 {
      var c3 := Straight(lay, code, c2, six, [Bra(3), Nop] + low, end);
      SixRun(lay, c2.s);
      d := Over(lay, code, c3, 3, low, end);
      Then(lay, code, c, c2, c3); Then(lay, code, c, c3, d);
    } else {
      var c3 := Straight(lay, code, c2, [CmpEqI(6)], [Bt(9 - 1)] + one, end);
      IsSixRun(lay, c2.s);
      var c4 := Skip(lay, code, c3, true, 9, one, end);
      Then(lay, code, c, c2, c3); Then(lay, code, c, c3, c4);
      if c.s.r12 == 6 {
        d := Straight(lay, code, c4, twice, rest, end);
        TwiceRun(lay, c4.s);
        Then(lay, code, c, c4, d);
      } else {
        var c5 := Straight(lay, code, c4, [Sub(R2, R13)], [Bra(9), Nop] + mid, end);
        OnceRun(lay, c4.s);
        d := Over(lay, code, c5, 9, mid, end);
        Then(lay, code, c, c4, c5); Then(lay, code, c, c5, d);
      }
    }
  }
  lemma StoreTails(rest: seq<Ins>)
    ensures var low := [Mov(R2, R0), Shll(R0), Sub(R0, R13)] + rest;
      var mid := [MovI(6, R0), MulL(R0, R2), StsMacl(R0), Sub(R0, R13)] + ([Bra(3), Nop] + low);
      var one := [Sub(R2, R13)] + ([Bra(9), Nop] + mid);
      var test := [CmpEqI(6)] + ([Bt(9 - 1)] + one);
      |low| == 3 + |rest| && low[3..] == rest && mid[9..] == rest && one[9..] == low && one[0..] == one
      && test[5..] == mid && test[0..] == test
  {
    var low := [Mov(R2, R0), Shll(R0), Sub(R0, R13)] + rest;
    var skip := [Bra(3), Nop] + low;
    var six := [MovI(6, R0), MulL(R0, R2), StsMacl(R0), Sub(R0, R13)];
    var mid := six + skip;
    var over := [Bra(9), Nop] + mid;
    var one := [Sub(R2, R13)] + over;
    Drop([Bra(3), Nop], low, 0); Drop([Bra(3), Nop], low, 3); Drop(six, skip, 2); Drop(six, skip, 5);
    Drop([Bra(9), Nop], mid, 0); Drop([Bra(9), Nop], mid, 6); Drop([Sub(R2, R13)], over, 2);
    Drop([Sub(R2, R13)], over, 8);
    Drop([Bt(9 - 1)], one, 3); Drop([CmpEqI(6)], [Bt(9 - 1)] + one, 4);
  }

  lemma Returned(lay: Lay, code: seq<Ins>, c: Conf, end: nat)
    requires Here(code, c, [Rts, Nop], end) && c.pr <= |code|
    ensures Leads(lay, code, c, c.(pc := c.pr))
  {
    hide Leads;
    AtIndex(code, c.pc, [Rts, Nop], 0); AtIndex(code, c.pc, [Rts, Nop], 1);
    One(lay, code, c, c.(pc := c.pr));
  }
  /** The charge and the return. */
  lemma Charged(lay: Lay, code: seq<Ins>, c: Conf, e: Env, op: Opc, a: Word, end: nat) returns (d: Conf)
    requires Here(code, c, Charge(op.load), end) && Native(op) && lay.params == Params(op) && c.pr <= |code|
    requires c.s.r12 == Region(a)
    requires Costs(lay, e) && Bounds(lay, |c.s.mem|) && a < 0x1000_0000 && (!op.load ==> Region(a) in {2, 3, 6})
    ensures Leads(lay, code, c, d) && d.pc == c.pr && Settled(c.s, d.s)
    ensures op.load ==> d.s.r13 == Sh4.Lo(c.s.r13 - Count(op.list) * e.cost(Region(a)))
    ensures !op.load ==>
      d.s.r13 == Sh4.Lo(c.s.r13 - Count(op.list) * (if Region(a) == 2 then 6 else if Region(a) == 6 then 2 else 1))
  {
    hide Here, Leads, Run, Do, Count, Has, Region, Params, SubW, Sh4.Lo, Costs, Bounds;
    Lists(op, Params(op)); Accepted(op); RegionSmall(a);
    var n := Count(op.list);
    var last := if op.load then LoadCharge([Rts, Nop]) else StoreCharge([Rts, Nop]);
    var c1 := Literally(lay, code, c, R2, CountField() + last, end);
    var c2 := Straight(lay, code, c1, CountField(), last, end);
    CountFieldRun(lay, c1.s);
    Then(lay, code, c, c1, c2);
    var c3: Conf;
    if op.load { c3 := LoadCharged(lay, code, c2, e, [Rts, Nop], end); }
    else {
      c3 := StoreCharged(lay, code, c2, [Rts, Nop], end);
      SubLo(c.s.r13, 6 * n); SubLo(c.s.r13, 2 * n); SubLo(c.s.r13, n);
    }
    Returned(lay, code, c3, end);
    d := c3.(pc := c3.pr);
    Then(lay, code, c, c2, c3); Then(lay, code, c, c3, d);
  }

  // ---- the guards in order -------------------------------------------------------------------------

  /** A call of the routine: guest r0 published, the literal in place, the run's address in R1 and
      the written-back base in R6. */
  ghost predicate Called(j: Job) {
    Wired(j) && Filed(j.s, j.m) && j.lay.params == Params(j.op) && j.s.r1 == AddrOf(j)
    && (WritesBack(j.op) ==> j.s.r6 == AddW(BaseOf(j), Sh4.SExt8(BaseOffset(j.op))))
  }
  ghost predicate Stage(j: Job, c: Conf) {
    Called(j) && Kept(j.s, c.s) && c.s.r1 == AddrOf(j) && c.s.r6 == j.s.r6 && c.pr <= |j.code|
  }
  /** Back at the site with the transfer made and paid for, or on the slow path. */
  ghost predicate Met(j: Job, pr: nat, d: Conf) {
    if Passes(j) then
      d.pc == pr && j.op.rn < 16 && Native(j.op) && Mapped(j.e, AddrOf(j)) && Filed(d.s, Fast(j.e, j.op, j.m))
      && d.s.r8 == j.s.r8 && d.s.r11 == j.s.r11
      && d.s.r13 == Sh4.Lo(j.s.r13 - (Fast(j.e, j.op, j.m).cycles - j.m.cycles))
    else d.pc == j.slow && Kept(j.s, d.s)
  }
  lemma Refused(j: Job, pr: nat, d: Conf)
    requires !Passes(j) && d.pc == j.slow && Kept(j.s, d.s)
    ensures Met(j, pr, d)
  {}
  lemma FiledCycles(s: Mach, m: M, n: nat) requires Filed(s, m) ensures Filed(s, m.(cycles := n)) {}
  lemma StoreCost(e: Env, a: Word)
    requires Region(a) in {2, 3, 6}
    ensures WordCost(e, false, a) == if Region(a) == 2 then 6 else if Region(a) == 6 then 2 else 1
  {}

  lemma Worked(j: Job, c: Conf) returns (d: Conf)
    requires Stage(j, c) && Passes(j) && Here(j.code, c, Work(j.op.load, WritesBack(j.op)), j.slow)
    requires Mapped(j.e, AddrOf(j)) && c.s.r3 == j.e.pages[AddrOf(j) / 0x8000] && c.s.r0 == AddrOf(j) % 0x8000
    requires c.s.r12 == Region(AddrOf(j))
    ensures Leads(j.lay, j.code, c, d) && Met(j, c.pr, d)
  {
    hide Here, Leads, Region, Blocks.Valid, Count, Has, Based, AddW, Sh4.Lo, Guards, Fast, TagsIn, Shows, Costs, Bounds,
         FastLoop, Params, Transfer, WriteBack, Charge, Sh4.SExt8, BaseOffset, Start, WordCost;
    RunPlace(j); Price(j); Accepted(j.op);
    var a := AddrOf(j);
    var at := HostAt(j.e, a);
    FastShape(j.e, j.op, j.m, a);
    RoomInPage(j);
    var wb, charge := WritesBack(j.op), Charge(j.op.load);
    var m1 := FastLoop(j.op.load, j.m, j.op.list, 0, at);
    var c1 := Transferring(j.lay, j.code, c, j.op, WriteBack(wb, charge), j.slow, j.m, at);
    var c2 := WrittenBack(j.lay, j.code, c1, j.op, charge, j.slow, m1, BaseOf(j));
    BasedMem(j.op, m1, BaseOf(j));
    if !j.op.load { PassedRegions(j); StoreCost(j.e, a); }
    d := Charged(j.lay, j.code, c2, j.e, j.op, a, j.slow);
    Then(j.lay, j.code, c, c1, c2); Then(j.lay, j.code, c, c2, d);
    FiledCycles(d.s, Based(j.op, m1, BaseOf(j)), Fast(j.e, j.op, j.m).cycles);
  }
  lemma RoomInPage(j: Job)
    requires Wired(j) && Passes(j)
    ensures AddrOf(j) % 0x8000 + 4 * Count(j.op.list) <= 0x8000
  {
    hide Start, Shows, Laid, Blocks.Valid, Count, Region, Untagged, Has;
    PageFits(AddrOf(j), Count(j.op.list));
  }
  lemma PassedRegions(j: Job)
    requires Wired(j) && Passes(j) && !j.op.load
    ensures Region(AddrOf(j)) in {2, 3, 6}
  {
    hide Start, Shows, Laid, Blocks.Valid, Count, Region, Has;
    GuardsSpan(j.e, j.op.load, AddrOf(j), Count(j.op.list));
  }

  lemma Admitting(j: Job, c: Conf) returns (d: Conf)
    requires Stage(j, c) && OnePageOk(j) && RegionOk(j) && c.s.r12 == Region(AddrOf(j)) && c.s.r2 == Count(j.op.list)
    requires Mapped(j.e, AddrOf(j)) && c.s.r3 == j.e.pages[AddrOf(j) / 0x8000] && c.s.r0 == AddrOf(j) % 0x8000
    requires var work := Work(j.op.load, WritesBack(j.op));
      Here(j.code, c, if j.op.load then HostAligned() + Leave(false, work) else Scan(work), j.slow)
    ensures Leads(j.lay, j.code, c, d) && Met(j, c.pr, d)
  {
    hide Here, Leads, Region, Blocks.Valid, Start, TagsIn, Bounds, Shows, Costs, Run, Do, AddW, Sh4.Lo, Untagged,
         OnePageOk, Passes, Native, Scan, Count, Params, Work, Leave, Met, HostAt;
    PassesIff(j);
    var work := Work(j.op.load, WritesBack(j.op));
    var c1: Conf;
    if j.op.load {
      var c0 := Straight(j.lay, j.code, c, HostAligned(), Leave(false, work), j.slow);
      HostAlignedRun(j.lay, c.s); HostSum(j, c.s);
      c1 := Leaving(j.lay, j.code, c0, false, work, j.slow);
      Then(j.lay, j.code, c, c0, c1);
    } else {
      StoreRegions(j);
      c1 := ScanDone(j.lay, j.code, c, j.e, j.m, work, j.slow, AddrOf(j));
    }
    if HostOk(j) {
      d := Worked(j, c1);
      Then(j.lay, j.code, c, c1, d);
    } else { d := c1; Refused(j, c.pr, d); }
  }
  lemma HostSum(j: Job, s: Mach)
    requires Wired(j) && Mapped(j.e, AddrOf(j)) && s.r3 == j.e.pages[AddrOf(j) / 0x8000] && s.r0 == AddrOf(j) % 0x8000
    ensures AddW(s.r0, s.r3) == HostAt(j.e, AddrOf(j))
  {
    hide Start, Shows, Costs, TagsIn, Count, Region;
    MappedRoom(j.e, j.m, AddrOf(j));
  }

  lemma Paged(j: Job, c: Conf) returns (d: Conf)
    requires Stage(j, c) && OnePageOk(j) && RegionOk(j) && c.s.r12 == Region(AddrOf(j)) && c.s.r2 == Count(j.op.list)
    requires Here(j.code, c, FromPage(j.op.load, WritesBack(j.op), j.lay.table), j.slow)
    ensures Leads(j.lay, j.code, c, d) && Met(j, c.pr, d)
  {
    hide Here, Leads, Region, Blocks.Valid, Start, TagsIn, Bounds, Shows, Costs, Run, Do, AddW, Sh4.Lo, Untagged,
         OnePageOk, Passes, Native, Scan, Count, Params, Work, Leave, Met, HostOk, Laid, InPage, WordAt;
    PassesIff(j);
    var p := AddrOf(j) / 0x8000;
    var work := Work(j.op.load, WritesBack(j.op));
    var last := if j.op.load then HostAligned() + Leave(false, work) else Scan(work);
    var r3 := Leave(true, InPage() + last);
    var r2 := [Tst(R3, R3)] + r3;
    var c1 := Straight(j.lay, j.code, c, PageIndex(j.lay.table), [LdL(R3, R3)] + r2, j.slow);
    PageIndexRun(j.lay, c.s, j.lay.table); TableWord(j, c1.s);
    var c2 := Access(j.lay, j.code, c1, LdL(R3, R3), r2, j.slow, c1.s.(r3 := j.lay.entry(p)));
    var c3 := Tested3(j.lay, j.code, c2, r3, j.slow);
    var c4 := Leaving(j.lay, j.code, c3, true, InPage() + last, j.slow);
    Then(j.lay, j.code, c, c1, c2); Then(j.lay, j.code, c, c2, c3); Then(j.lay, j.code, c, c3, c4);
    if p in j.e.pages {
      PageSeg();
      var c5 := Straight(j.lay, j.code, c4, InPage(), last, j.slow);
      InPageRun(j.lay, c4.s);
      d := Admitting(j, c5);
      Then(j.lay, j.code, c, c4, c5); Then(j.lay, j.code, c, c5, d);
    } else { d := c4; Refused(j, c.pr, d); }
  }
  lemma PageSeg() ensures AllPure(InPage()) {}

  lemma ZeroRun(lay: Lay, s: Mach)
    ensures Run(lay, [Tst(R0, R0)], s) == s.(t := s.r0 == 0)
  { hide Run, AndW; Run1(lay, Tst(R0, R0), s); TestSelf(s.r0); }
  lemma Regioned(j: Job, c: Conf) returns (d: Conf)
    requires Stage(j, c) && OnePageOk(j) && AddrOf(j) < 0x1000_0000 && c.s.r2 == Count(j.op.list)
    requires Here(j.code, c, Region12() + FromRegion(j.op.load, WritesBack(j.op), j.lay.table), j.slow)
    ensures Leads(j.lay, j.code, c, d) && Met(j, c.pr, d)
  {
    hide Here, Leads, Region, Called, Start, Run, Do, OnePageOk, Passes, HostOk, Leave, FromPage, Met, Count, Has;
    assert Wired(j) by { CalledWired(j); }
    PassesIff(j);
    var wb := WritesBack(j.op);
    var page := FromPage(j.op.load, wb, j.lay.table);
    var c1 := Straight(j.lay, j.code, c, Region12(), FromRegion(j.op.load, wb, j.lay.table), j.slow);
    Region12Run(j.lay, c.s);
    var c2: Conf;
    if j.op.load {
      var c0 := Straight(j.lay, j.code, c1, [Tst(R0, R0)], Leave(true, page), j.slow);
      ZeroRun(j.lay, c1.s);
      c2 := Leaving(j.lay, j.code, c0, true, page, j.slow);
      Then(j.lay, j.code, c1, c0, c2);
    } else { c2 := StoreRegioned(j.lay, j.code, c1, page, j.slow); }
    Then(j.lay, j.code, c, c1, c2);
    if RegionOk(j) {
      d := Paged(j, c2);
      Then(j.lay, j.code, c, c2, d);
    } else { d := c2; Refused(j, c.pr, d); }
  }
  lemma CalledWired(j: Job) requires Called(j) ensures Wired(j) {}
  lemma StoreRegioned(lay: Lay, code: seq<Ins>, c: Conf, page: seq<Ins>, slow: nat) returns (d: Conf)
    requires Here(code, c, [CmpEqI(6)] + ([Bt(2)] + (InRam() + Leave(false, page))), slow)
    ensures Leads(lay, code, c, d) && d.pr == c.pr && d.s == c.s.(r0 := d.s.r0, t := d.s.t)
    ensures if c.s.r0 == 6 || c.s.r0 / 2 == 1 then Here(code, d, page, slow) else d.pc == slow
  {
    hide Here, Leads, Run, Do;
    var test := Leave(false, page);
    var last := InRam() + test;
    LeaveLength(page);
    Drop([test[0]], page, 0); Drop(InRam(), test, 1);
    assert last[0..] == last;
    var c1 := Straight(lay, code, c, [CmpEqI(6)], [Bt(3 - 1)] + last, slow);
    IsSixRun(lay, c.s);
    d := Skip(lay, code, c1, true, 3, last, slow);
    Then(lay, code, c, c1, d);
    if !c1.s.t {
      var c3 := Straight(lay, code, d, InRam(), test, slow);
      InRamRun(lay, d.s);
      Then(lay, code, c, d, c3);
      d := Leaving(lay, code, c3, false, page, slow);
      Then(lay, code, c, c3, d);
    }
  }

  /** The routine from its first instruction. */
  lemma RoutineRuns(j: Job, c: Conf) returns (d: Conf)
    requires Stage(j, c) && Here(j.code, c, Main(j.op.load, WritesBack(j.op), j.lay.table), j.slow)
    ensures Leads(j.lay, j.code, c, d) && Met(j, c.pr, d)
  {
    hide Here, Leads, Start, Run, Do, Passes, Leave, FromRegion, Met, Laid, Blocks.Valid, Shows, Literal, Count, Has,
         Region, Params, Sh4.Lo, Bounds;
    PassesIff(j); LaidBounds(j); Lists(j.op, Params(j.op));
    var a := AddrOf(j);
    var region := Region12() + FromRegion(j.op.load, WritesBack(j.op), j.lay.table);
    var bound := Bound() + Leave(true, region);
    var same := SamePage() + Leave(false, bound);
    var straddle := LastByte() + same;
    var c1 := Literally(j.lay, j.code, c, R2, CountField() + (Aligned4() + Leave(false, straddle)), j.slow);
    var c2 := Straight(j.lay, j.code, c1, CountField(), Aligned4() + Leave(false, straddle), j.slow);
    CountFieldRun(j.lay, c1.s);
    var c3 := Straight(j.lay, j.code, c2, Aligned4(), Leave(false, straddle), j.slow);
    Aligned4Run(j.lay, c2.s);
    var c4 := Leaving(j.lay, j.code, c3, false, straddle, j.slow);
    Then(j.lay, j.code, c, c1, c2); Then(j.lay, j.code, c, c2, c3); Then(j.lay, j.code, c, c3, c4);
    var c5 := Straight(j.lay, j.code, c4, LastByte(), same, j.slow);
    LastByteRun(j.lay, c4.s);
    var c6 := Straight(j.lay, j.code, c5, SamePage(), Leave(false, bound), j.slow);
    SamePageRun(j.lay, c5.s);
    var c7 := Leaving(j.lay, j.code, c6, false, bound, j.slow);
    Then(j.lay, j.code, c, c4, c5); Then(j.lay, j.code, c, c5, c6); Then(j.lay, j.code, c, c6, c7);
    if OnePageOk(j) {
      d := Bounded(j, c7, region);
      Then(j.lay, j.code, c, c7, d);
    } else { d := c7; Refused(j, c.pr, d); }
  }
  lemma LaidBounds(j: Job) requires Wired(j) && Filed(j.s, j.m) ensures Bounds(j.lay, |j.s.mem|) {}
  lemma Bounded(j: Job, c: Conf, region: seq<Ins>) returns (d: Conf)
    requires Stage(j, c) && OnePageOk(j) && c.s.r2 == Count(j.op.list)
    requires region == Region12() + FromRegion(j.op.load, WritesBack(j.op), j.lay.table)
    requires Here(j.code, c, Bound() + Leave(true, region), j.slow)
    ensures Leads(j.lay, j.code, c, d) && Met(j, c.pr, d)
  {
    hide Here, Leads, Start, Run, Do, Passes, Leave, FromRegion, Met, Called, Count, Has, Region;
    CalledWired(j); PassesIff(j);
    var c1 := Straight(j.lay, j.code, c, Bound(), Leave(true, region), j.slow);
    BoundRun(j.lay, c.s);
    var c2 := Leaving(j.lay, j.code, c1, true, region, j.slow);
    Then(j.lay, j.code, c, c1, c2);
    if AddrOf(j) < 0x1000_0000 {
      d := Regioned(j, c2);
      Then(j.lay, j.code, c, c2, d);
    } else { d := c2; Refused(j, c.pr, d); }
  }

  // ---- the site ------------------------------------------------------------------------------------

  function BaseSeg(op: Opc): seq<Ins> { if WritesBack(op) then [Mov(R1, R6), AddI(BaseOffset(op), R6)] else [] }
  function AddrSeg(op: Opc): seq<Ins> { [Shlr2(R1), Shll2(R1), AddI(Offset(op), R1)] }
  lemma BaseSegRun(lay: Lay, s: Mach, op: Opc)
    ensures Run(lay, BaseSeg(op), s) == if WritesBack(op) then s.(r6 := AddW(s.r1, Sh4.SExt8(BaseOffset(op)))) else s
  {
    hide Run, AddW, Sh4.SExt8, BaseOffset, Has;
    if WritesBack(op) { Run2(lay, Mov(R1, R6), AddI(BaseOffset(op), R6), s); } else { RunNone(lay, s); }
  }
  lemma AddrSegRun(lay: Lay, s: Mach, op: Opc)
    ensures Run(lay, AddrSeg(op), s) == s.(r1 := Start(op, s.r1))
  { hide Run, AddW, Sh4.SExt8, Offset, Sh4.Shl2; Run3(lay, Shlr2(R1), Shll2(R1), AddI(Offset(op), R1), s); }
  lemma SiteHeadRun(lay: Lay, s: Mach, m: M, op: Opc)
    requires Shows(s, m) && op.rn < 16
    ensures var d := Run(lay, SiteHead(op), s);
      d == s.(r1 := Start(op, m.r[op.rn]), r6 := d.r6)
      && (WritesBack(op) ==> d.r6 == AddW(m.r[op.rn], Sh4.SExt8(BaseOffset(op))))
  {
    hide Run, Shows, AddW, Sh4.SExt8, Offset, BaseOffset, Start, Do, Has;
    var i := LoadGuest(op.rn, R1);
    assert SiteHead(op) == [i] + BaseSeg(op) + AddrSeg(op);
    RunAppend(lay, [i] + BaseSeg(op), AddrSeg(op), s); RunAppend(lay, [i], BaseSeg(op), s);
    Run1(lay, i, s); LoadGuestDo(lay, s, m, op.rn, R1);
    BaseSegRun(lay, s.(r1 := m.r[op.rn]), op);
    AddrSegRun(lay, Run(lay, BaseSeg(op), s.(r1 := m.r[op.rn])), op);
  }
  lemma PublishRun(lay: Lay, s: Mach, m: M)
    requires Shows(s, m)
    ensures Run(lay, [StG(R11, 0)], s) == s.(file := m.r)
  { hide Run; Run1(lay, StG(R11, 0), s); }
  lemma TakeBack(lay: Lay, code: seq<Ins>, c: Conf, f: M) returns (d: Conf)
    requires At(code, c.pc, [LdG(0, R11)]) && c.pc + 1 == |code| && Filed(c.s, f)
    ensures Leads(lay, code, c, d) && d == After(c, 1, c.s.(r11 := f.r[0])) && d.pc == |code| && Shows(d.s, f)
  {
    hide Leads, Run;
    d := Straight(lay, code, c, [LdG(0, R11)], [], |code|);
    Run1(lay, LdG(0, R11), c.s);
  }
  lemma JsrStep(lay: Lay, code: seq<Ins>, c: Conf)
    requires At(code, c.pc, [Jsr(0), Nop])
    ensures Leads(lay, code, c, c.(pc := 0, pr := c.pc + 2))
  {
    hide Leads;
    AtIndex(code, c.pc, [Jsr(0), Nop], 0); AtIndex(code, c.pc, [Jsr(0), Nop], 1);
    One(lay, code, c, c.(pc := 0, pr := c.pc + 2));
  }
  /** The site up to the routine's first instruction. */
  lemma Calling(lay: Lay, code: seq<Ins>, op: Opc, c: Conf, m: M, base: Word) returns (d: Conf)
    requires Shows(c.s, m) && op.rn < 16 && base == m.r[op.rn] && Here(code, c, Site(op), |code|)
    ensures Leads(lay, code, c, d) && d.pc == 0 && d.pr + 1 == |code| && At(code, d.pr, [LdG(0, R11)])
    ensures Filed(d.s, m) && d.s.r1 == Start(op, base)
    ensures (WritesBack(op) ==> d.s.r6 == AddW(base, Sh4.SExt8(BaseOffset(op))))
    ensures d.s.r8 == c.s.r8 && d.s.r13 == c.s.r13 && d.s.r11 == c.s.r11
  {
    hide Leads, Main, Run, Has, Start, SiteHead, Shows, At, AddW, Do, Sh4.SExt8, BaseOffset;
    var last := [LdG(0, R11)];
    SitePure(op);
    assert Site(op) == SiteHead(op) + ([StG(R11, 0)] + ([Jsr(0), Nop] + last));
    var c1 := Straight(lay, code, c, SiteHead(op), [StG(R11, 0)] + ([Jsr(0), Nop] + last), |code|);
    SiteHeadRun(lay, c.s, m, op);
    ShowsGuest(c.s, c1.s, m);
    var c2 := Straight(lay, code, c1, [StG(R11, 0)], [Jsr(0), Nop] + last, |code|);
    PublishRun(lay, c1.s, m);
    AtSplit(code, c2.pc, [Jsr(0), Nop], last);
    JsrStep(lay, code, c2);
    d := c2.(pc := 0, pr := c2.pc + 2);
    Then(lay, code, c, c1, c2); Then(lay, code, c, c2, d);
    ShowsMem(c1.s, m);
  }
  lemma SitePlace(a: seq<Ins>, b: seq<Ins>, c: Conf)
    requires c.pc == |a|
    ensures Here(a + b, c, b, |a + b|)
  {}
  lemma SitePure(op: Opc) ensures AllPure(SiteHead(op)) {}

  function SiteAt(op: Opc, table: Word): nat { |Main(op.load, WritesBack(op), table)| + 1 }
  /** The call site and the shared routine of every LDM/STM the emitter takes. */
  lemma SiteCorrect(lay: Lay, e: Env, op: Opc, pc: Word, m: M, c: Conf) returns (d: Conf)
    requires Blocks.Valid(e, m) && Laid(lay, e, m.mem) && Native(op) && Shows(c.s, m) && lay.params == Params(op)
    requires c.pc == SiteAt(op, lay.table)
    ensures TagLengthsOk(e) && AsHelper(lay, Program(op, lay.table), e, op, pc, m, c, d)
  {
    hide Leads, Start, Passes, Main, Laid, Blocks.Valid, Shows, Count, Has, Guards, Helper, Fast, Here, Mapped, Params,
         Site, Sh4.Lo, AddW, Sh4.SExt8, BaseOffset, At, Filed;
    Accepted(op); ValidTags(e, m);
    var code, main := Program(op, lay.table), Main(op.load, WritesBack(op), lay.table);
    SitePlace(main + [Slow], Site(op), c);
    var c1 := Calling(lay, code, op, c, m, m.r[op.rn]);
    FiledShows(c1.s, c.s, m);
    var j := Job(lay, code, |main|, e, op, m, c1.s);
    MainFirst(main, Site(op), c1);
    var c2 := RoutineRuns(j, c1);
    Then(lay, code, c, c1, c2);
    PassesIs(j); LoWord(c.s.r13);
    if Passes(j) {
      FastCorrect(e, op, pc, m);
      d := TakeBack(lay, code, c2, Fast(e, op, m));
      Then(lay, code, c, c2, d);
      FastSame(e, op, m);
    } else {
      d := c2;
      ShowsGuest2(c1.s, d.s, m);
    }
  }
  lemma FiledShows(s: Mach, s0: Mach, m: M)
    requires Filed(s, m) && Shows(s0, m) && s.r11 == s0.r11
    ensures Shows(s, m)
  {}
  lemma FastSame(e: Env, op: Opc, m: M)
    requires Native(op) && Mapped(e, Start(op, m.r[op.rn]))
    ensures Fast(e, op, m).dev == m.dev && Fast(e, op, m).alert == m.alert
  {
    hide Start, Mapped, Has, Count;
    FastShape(e, op, m, Start(op, m.r[op.rn])); hide FastLoop, HostAt;
  }
  lemma MainFirst(main: seq<Ins>, site: seq<Ins>, c: Conf)
    requires c.pc == 0
    ensures Here(main + [Slow] + site, c, main, |main|) && |main| < |main + [Slow] + site|
    ensures (main + [Slow] + site)[|main|] == Slow
  { assert main + [Slow] + site == main + ([Slow] + site); }
}
