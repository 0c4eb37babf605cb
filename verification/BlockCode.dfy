/** The code sh4g_arm_block_native emits inline for an LDM/STM, run on the SH-4A: it is the C
    helper's transfer, or hands untouched guest state to the helper. */
module BlockCode {
  import opened Words
  import opened Guest
  import opened GuestBus
  import opened Chunks
  import opened Sh4Mem
  import opened Blocks
  import Sh4

  // ---- the emitted code -------------------------------------------------------------

  function LoadGuest(i: nat, n: Reg): Ins { if i == 0 then Mov(R11, n) else LdG(i, n) }
  function StoreGuest(m: Reg, i: nat): Ins { if i == 0 then Mov(m, R11) else StG(m, i) }

  /** sh4g_block_guard: a short skip over a far branch to the slow path, which follows `rest`. */
  function Guarded(slowIfT: bool, rest: seq<Ins>): seq<Ins> {
    [if slowIfT then Bf(1) else Bt(1)] + ([Bra(|rest|), Nop] + rest)
  }

  function Head(op: Opc): seq<Ins> {
    [LoadGuest(op.rn, R1), Mov(R1, R5), Shlr2(R5), Shll2(R5), AddI(Offset(op), R5)]
  }
  function Straddle(n: nat): seq<Ins> {
    [Mov(R5, R0), MovI(-15, R2), Shld(R2, R0), Mov(R5, R3), AddI(4 * n - 1, R3), Shld(R2, R3), CmpEq(R0, R3)]
  }
  function Bound(): seq<Ins> { [Const(0x1000_0000, R3), CmpHs(R3, R5)] }
  function LoadRegion(): seq<Ins> { [Mov(R5, R3), Shlr16(R3), Shlr8(R3), Tst(R3, R3)] }
  function StoreRegion(): seq<Ins> { [Mov(R5, R0), Shlr16(R0), Shlr8(R0), CmpEqI(6)] }
  function InRam(): seq<Ins> { [Shlr(R0), CmpEqI(1)] }
  function PageIndex(table: Word): seq<Ins> { [Mov(R5, R0), MovI(-15, R2), Shld(R2, R0), Shll2(R0), Const(table, R3)] }
  function InPage(): seq<Ins> { [Mov(R5, R0), Shll16(R0), Shll(R0), Shlr16(R0), Shlr(R0)] }
  function HostAligned(): seq<Ins> { [Mov(R0, R2), Add(R3, R2), MovI(3, R4), Tst(R4, R2)] }

  function IsRegion(k: nat): seq<Ins> { [Mov(R5, R2), Shlr16(R2), Shlr8(R2), MovI(k, R4), CmpEq(R4, R2)] }
  /** Page of the code tags in R6: 0x40000 above EWRAM data, 0x8000 below IWRAM data. */
  function TagPage(): seq<Ins> {
    [Mov(R3, R6)] + IsRegion(2)
    + [Bf(3), Const(0x4_0000, R4), Add(R4, R6), Bra(2), Nop, Const(0xFFFF_8000, R4), Add(R4, R6)]
  }
  function ScanWords(k: nat, n: nat, rest: seq<Ins>): seq<Ins> {
    if k == 0 then [AddI(0 - 4 * n, R0)] + rest
    else [LdL(R6, R4)] + ([Tst(R4, R4)] + Guarded(false, [AddI(4, R0)] + ScanWords(k - 1, n, rest)))
  }
  /** VRAM has no tags; elsewhere every destination tag is read before any store. */
  function Scan(n: nat, rest: seq<Ins>): seq<Ins> {
    IsRegion(6) + ([Bt(|TagPage()| + 6 * n)] + (TagPage() + ScanWords(n, n, rest)))
  }

  function LoadCode(i: nat): seq<Ins> { [AddI(4, R0), SwpB(R2, R4), SwpW(R4, R4), SwpB(R4, R2), StoreGuest(R2, i)] }
  function StoreCode(i: nat): seq<Ins> { [LoadGuest(i, R2), SwpB(R2, R4), SwpW(R4, R4), SwpB(R4, R2)] }
  function MoveOne(load: bool, i: nat, rest: seq<Ins>): seq<Ins> {
    if load then [LdL(R3, R2)] + (LoadCode(i) + rest) else StoreCode(i) + ([StL(R2, R3)] + ([AddI(4, R0)] + rest))
  }
  /** The unrolled transfer, lowest register first. */
  function Moves(load: bool, list: nat, i: nat, rest: seq<Ins>): seq<Ins> {
    if list == 0 || i >= 16 then rest
    else if list % 2 == 0 then Moves(load, list / 2, i + 1, rest)
    else MoveOne(load, i, Moves(load, list / 2, i + 1, rest))
  }
  function WriteBack(op: Opc): seq<Ins> {
    if WritesBack(op) then [Mov(R1, R2), AddI(BaseOffset(op), R2), StoreGuest(R2, op.rn)] else []
  }
  function CostCell(): seq<Ins> { [Mov(R5, R0), Shlr16(R0), Shlr8(R0), Shll(R0), AddI(1, R0), LdVec(R3)] }
  function Debit(n: nat): seq<Ins> {
    [ExtuB(R2, R2)] + (if n > 1 then [MovI(n, R1), MulL(R2, R1), StsMacl(R2)] else []) + [Sub(R2, R13)]
  }
  /** The branch at the end skips the slow path. */
  function Finish(op: Opc): seq<Ins> {
    WriteBack(op) + (CostCell() + ([LdB(R3, R2)] + (Debit(Count(op.list)) + [Bra(1), Nop])))
  }

  function FromPage(op: Opc, table: Word): seq<Ins> {
    var moves := Moves(op.load, op.list, 0, Finish(op));
    PageIndex(table)
    + ([LdL(R3, R3)]
    + ([Tst(R3, R3)] + Guarded(true,
        InPage() + if op.load then HostAligned() + Guarded(false, moves) else Scan(Count(op.list), moves))))
  }
  function FromRegion(op: Opc, table: Word): seq<Ins> {
    if op.load then LoadRegion() + Guarded(true, FromPage(op, table))
    else StoreRegion() + ([Bt(4)] + (InRam() + Guarded(false, FromPage(op, table))))
  }
  function Main(op: Opc, table: Word): seq<Ins> {
    Head(op) + (Straddle(Count(op.list)) + Guarded(false, Bound() + Guarded(true, FromRegion(op, table))))
  }
  /** The whole inline form; its last instruction is the slow path. */
  function Inline(op: Opc, table: Word): seq<Ins> { Main(op, table) + [Slow] }

  // ---- the machine around it ---------------------------------------------------------

  /** Table, literals and wait states lie outside guest memory; RAM arrays and VRAM pages are
      word-aligned; the tag bytes of the environment are in host memory beside the data. */
  ghost predicate Laid(lay: Lay, e: Env, mem: seq<Byte>) {
    Bounds(lay, |mem|)
    && (forall p :: 0 <= p < 0x2000 ==> lay.entry(p) == if p in e.pages then e.pages[p] else 0)
    && (forall p :: p in e.pages ==> 0 < e.pages[p] < |mem|)
    && (forall p :: p in e.pages && p / 512 in {2, 3, 6} ==> e.pages[p] % 4 == 0)
    && Costs(lay, e) && TagsIn(e, mem)
  }
  ghost predicate Costs(lay: Lay, e: Env) { forall k: nat :: k < 16 ==> lay.ws(2 * k + 1) == e.cost(k) }
  predicate Bounds(lay: Lay, n: nat) {
    n <= lay.table && lay.table % 4 == 0 && lay.table + 0x8000 <= lay.tuple && lay.tuple % 4 == 0
    && lay.tuple + 0x100 <= lay.costs && lay.costs + 32 <= 0x1_0000_0000
  }
  ghost predicate TagsIn(e: Env, mem: seq<Byte>) {
    |e.etags| == 0x4_0000 && |e.itags| == 0x8000
    && e.ewram % 4 == 0 && e.ewram + 0x8_0000 <= |mem| && e.iwram % 4 == 0 && 0x8000 <= e.iwram <= |mem|
    && (forall o :: 0 <= o < 0x4_0000 ==> (mem[e.ewram + 0x4_0000 + o] != 0 <==> e.etags[o]))
    && (forall o :: 0 <= o < 0x8000 ==> (mem[e.iwram - 0x8000 + o] != 0 <==> e.itags[o]))
  }

  /** One such machine: a page of EWRAM at 0x1_0000, its tags above it, IWRAM and its tags behind. */
  function SampleEnv(): Env {
    Env(map[0x400 := 0x1_0000], 0x1_0000, 0xA_0000, seq(0x4_0000, _ => false), seq(0x8000, _ => false),
        k => if k == 2 then 6 else if k == 6 then 2 else 1, _ => 0)
  }
  function SampleLay(params: Word): Lay {
    Lay(0x10_0000, p => if p == 0x400 then 0x1_0000 else 0, 0x20_0000, params, 0x30_0000,
        i => if i == 5 then 6 else if i == 13 then 2 else 1)
  }
  lemma SampleLaid(m: M, params: Word)
    requires |m.mem| == 0xB_0000 && forall i :: 0 <= i < |m.mem| ==> m.mem[i] == 0
    ensures Blocks.Valid(SampleEnv(), m) && Laid(SampleLay(params), SampleEnv(), m.mem)
  {}

  // ---- straight stretches ---------------------------------------------------------------

  lemma PageOf(x: Word) ensures Sh4.ShldOf(Sh4.SExt8(-15), x) == x / 0x8000
  { FifteenBits(); hide Pow2; }
  lemma RegionOf(x: Word) ensures x / 0x1_0000 / 0x100 == Region(x) { DivDiv(x, 0x1_0000, 0x100); }
  lemma LowOf(x: Word) ensures Sh4.Shl1(Sh4.Lo(0x1_0000 * x)) / 0x1_0000 / 2 == x % 0x8000
  {
    var q: int, r: int := x / 0x8000, x % 0x8000;
    var b: int := q % 2;
    ModUnique(0x1_0000 * x, 0x1_0000_0000, q / 2, 0x8000_0000 * b + 0x1_0000 * r);
    ModUnique(2 * (0x8000_0000 * b + 0x1_0000 * r), 0x1_0000_0000, b, 0x2_0000 * r);
    ModUnique(0x2_0000 * r, 0x1_0000, 2 * r, 0);
  }
  lemma TestSelf(x: Word) ensures AndW(x, x) == 0 <==> x == 0 { AndSelf(x); hide AndW; }
  lemma AndThree(x: Word) ensures AndW(x, 3) == x % 4 { AndMask(x, 2); assert Pow2(1) == 2; }

  lemma StraddleRun(lay: Lay, s: Mach, n: nat)
    requires 0 < n <= 15
    ensures Run(lay, Straddle(n), s) == s.(r0 := s.r5 / 0x8000, r2 := Sh4.SExt8(-15),
        r3 := Sh4.Lo(s.r5 + 4 * n - 1) / 0x8000,
                                           t := s.r5 / 0x8000 == Sh4.Lo(s.r5 + 4 * n - 1) / 0x8000)
  {
    hide Run, AddW, Sh4.SExt8, Sh4.ShldOf, Sh4.Lo;
    Run7(lay, Mov(R5, R0), MovI(-15, R2), Shld(R2, R0), Mov(R5, R3), AddI(4 * n - 1, R3), Shld(R2, R3), CmpEq(R0, R3),
        s);
    SmallImm(4 * n - 1); AddLo(s.r5, 4 * n - 1);
    PageOf(s.r5); PageOf(Sh4.Lo(s.r5 + 4 * n - 1));
  }
  lemma BoundRun(lay: Lay, s: Mach)
    ensures Run(lay, Bound(), s) == s.(r3 := 0x1000_0000, t := s.r5 >= 0x1000_0000)
  { hide Run; Run2(lay, Const(0x1000_0000, R3), CmpHs(R3, R5), s); }
  lemma LoadRegionRun(lay: Lay, s: Mach)
    ensures Run(lay, LoadRegion(), s) == s.(r3 := Region(s.r5), t := Region(s.r5) == 0)
  {
    hide Run, AndW;
    Run4(lay, Mov(R5, R3), Shlr16(R3), Shlr8(R3), Tst(R3, R3), s);
    RegionOf(s.r5); TestSelf(Region(s.r5));
  }
  lemma StoreRegionRun(lay: Lay, s: Mach)
    ensures Run(lay, StoreRegion(), s) == s.(r0 := Region(s.r5), t := Region(s.r5) == 6)
  {
    hide Run;
    Run4(lay, Mov(R5, R0), Shlr16(R0), Shlr8(R0), CmpEqI(6), s);
    RegionOf(s.r5);
  }
  lemma InRamRun(lay: Lay, s: Mach)
    ensures Run(lay, InRam(), s) == s.(r0 := s.r0 / 2, t := s.r0 / 2 == 1)
  { hide Run; Run2(lay, Shlr(R0), CmpEqI(1), s); }
  lemma PageIndexRun(lay: Lay, s: Mach, table: Word)
    requires s.r5 < 0x1000_0000
    ensures Run(lay, PageIndex(table), s) == s.(r0 := 4 * (s.r5 / 0x8000), r2 := Sh4.SExt8(-15), r3 := table)
  {
    hide Run, Sh4.SExt8, Sh4.ShldOf;
    Run5(lay, Mov(R5, R0), MovI(-15, R2), Shld(R2, R0), Shll2(R0), Const(table, R3), s);
    PageOf(s.r5);
  }
  lemma InPageRun(lay: Lay, s: Mach)
    ensures Run(lay, InPage(), s) == s.(r0 := s.r5 % 0x8000, t := Run(lay, InPage(), s).t)
  {
    hide Run, Sh4.Shl1, Sh4.Lo;
    Run5(lay, Mov(R5, R0), Shll16(R0), Shll(R0), Shlr16(R0), Shlr(R0), s);
    LowOf(s.r5);
  }
  lemma HostAlignedRun(lay: Lay, s: Mach)
    ensures Run(lay, HostAligned(), s) == s.(r2 := AddW(s.r0, s.r3), r4 := 3, t := AddW(s.r0, s.r3) % 4 == 0)
  {
    hide Run, AndW, AddW;
    Run4(lay, Mov(R0, R2), Add(R3, R2), MovI(3, R4), Tst(R4, R2), s);
    AndThree(AddW(s.r0, s.r3));
  }
  lemma IsRegionRun(lay: Lay, s: Mach, k: nat)
    requires k < 128
    ensures Run(lay, IsRegion(k), s) == s.(r2 := Region(s.r5), r4 := k, t := Region(s.r5) == k)
  {
    hide Run;
    Run5(lay, Mov(R5, R2), Shlr16(R2), Shlr8(R2), MovI(k, R4), CmpEq(R4, R2), s);
    RegionOf(s.r5);
  }

  // ---- the transfer -------------------------------------------------------------------------

  /** Guest registers and memory of machine and model. */
  ghost predicate Shows(s: Mach, m: M) { s.file[0 := s.r11] == m.r && s.mem == m.mem }
  /** What the transfer leaves alone. */
  ghost predicate Framed(s: Mach, d: Mach) {
    d.r1 == s.r1 && d.r3 == s.r3 && d.r5 == s.r5 && d.r8 == s.r8 && d.r12 == s.r12 && d.r13 == s.r13
  }
  lemma RamWord(lay: Lay, mem: seq<Byte>, a: nat)
    requires Bounds(lay, |mem|) && a % 4 == 0 && a + 4 <= |mem|
    ensures WordAt(lay, mem, a) == Sh4.Some(Raw(mem[a..a + 4]))
  {}
  lemma LoadGuestDo(lay: Lay, s: Mach, m: M, i: nat, n: Reg)
    requires Shows(s, m) && i < 16
    ensures Do(lay, LoadGuest(i, n), s) == Set(s, n, m.r[i])
  { hide Set; }
  lemma StoreGuestDo(lay: Lay, s: Mach, m: M, n: Reg, i: nat)
    requires Shows(s, m) && i < 16
    ensures var d := Do(lay, StoreGuest(n, i), s);
      Shows(d, m.(r := m.r[i := Get(s, n)])) && d == s.(file := d.file, r11 := d.r11)
  { hide Get; }

  lemma LoadCodeRun(lay: Lay, s: Mach, m: M, i: nat)
    requires Shows(s, m) && i < 16
    ensures var d := Run(lay, LoadCode(i), s);
      Shows(d, m.(r := m.r[i := Reversed(s.r2)])) && Framed(s, d) && d.r0 == AddW(s.r0, 4)
  {
    hide Run, Shows, SwapB, SwapW, AddW;
    Run5(lay, AddI(4, R0), SwpB(R2, R4), SwpW(R4, R4), SwpB(R4, R2), StoreGuest(R2, i), s);
    var s1 := s.(r0 := AddW(s.r0, 4), r2 := Reversed(s.r2), r4 := SwapW(SwapB(s.r2)));
    assert Shows(s1, m) by { ShowsGuest(s, s1, m); }
    StoreGuestDo(lay, s1, m, R2, i);
  }
  lemma ShowsGuest(s: Mach, d: Mach, m: M)
    requires Shows(s, m) && d.file == s.file && d.r11 == s.r11 && d.mem == s.mem
    ensures Shows(d, m)
  {}
  lemma StoreCodeRun(lay: Lay, s: Mach, m: M, i: nat)
    requires Shows(s, m) && i < 16
    ensures Run(lay, StoreCode(i), s) == s.(r2 := Reversed(m.r[i]), r4 := SwapW(SwapB(m.r[i])))
  {
    hide Run, Shows, SwapB, SwapW;
    Run4(lay, LoadGuest(i, R2), SwpB(R2, R4), SwpW(R4, R4), SwpB(R4, R2), s);
    LoadGuestDo(lay, s, m, i, R2);
  }

  lemma MovedLoad(lay: Lay, code: seq<Ins>, c: Conf, i: nat, rest: seq<Ins>, end: nat, m: M, at: nat) returns (d: Conf)
    requires Here(code, c, MoveOne(true, i, rest), end) && Shows(c.s, m) && i < 15 && Bounds(lay, |m.mem|)
    requires at == c.s.r3 + c.s.r0 && at % 4 == 0 && at + 4 <= |m.mem|
    ensures Leads(lay, code, c, d) && Here(code, d, rest, end) && Shows(d.s, FastOne(true, m, i, at))
    ensures Framed(c.s, d.s) && d.s.r0 == AddW(c.s.r0, 4) && d.pr == c.pr
  {
    hide Here, Leads, Run, AddW, Reversed, Raw, WordAt;
    var v := Raw(m.mem[at..at + 4]);
    RamWord(lay, m.mem, at); AddSmall(c.s.r0, c.s.r3);
    var c1 := Access(lay, code, c, LdL(R3, R2), LoadCode(i) + rest, end, c.s.(r2 := v));
    ShowsGuest(c.s, c1.s, m);
    d := Straight(lay, code, c1, LoadCode(i), rest, end);
    LoadCodeRun(lay, c1.s, m, i);
    Then(lay, code, c, c1, d);
  }
  lemma AddSmall(x: Word, y: Word) requires x + y < 0x1_0000_0000 ensures AddW(x, y) == x + y {}

  lemma MovedStore(lay: Lay, code: seq<Ins>, c: Conf, i: nat, rest: seq<Ins>, end: nat, m: M, at: nat) returns (d: Conf)
    requires Here(code, c, MoveOne(false, i, rest), end) && Shows(c.s, m) && i < 15 && Bounds(lay, |m.mem|)
    requires at == c.s.r3 + c.s.r0 && at % 4 == 0 && at + 4 <= |m.mem|
    ensures Leads(lay, code, c, d) && Here(code, d, rest, end) && Shows(d.s, FastOne(false, m, i, at))
    ensures Framed(c.s, d.s) && d.s.r0 == AddW(c.s.r0, 4) && d.pr == c.pr
  {
    hide Here, Leads, Run, AddW, Reversed, RawBytes, Put, Do;
    AddSmall(c.s.r0, c.s.r3);
    var c1 := Straight(lay, code, c, StoreCode(i), [StL(R2, R3)] + ([AddI(4, R0)] + rest), end);
    StoreCodeRun(lay, c.s, m, i);
    ShowsGuest(c.s, c1.s, m);
    var c2 := Access(lay, code, c1, StL(R2, R3), [AddI(4, R0)] + rest, end,
        c1.s.(mem := Put(m.mem, at, RawBytes(Reversed(m.r[i])))));
    d := Straight(lay, code, c2, [AddI(4, R0)], rest, end);
    NextWord(lay, c2.s);
    Then(lay, code, c, c1, c2); Then(lay, code, c, c2, d);
  }
  lemma NextWord(lay: Lay, s: Mach) ensures Run(lay, [AddI(4, R0)], s) == s.(r0 := AddW(s.r0, 4))
  { hide Run, AddW; Run1(lay, AddI(4, R0), s); }

  /** Where one register leaves the transfer. */
  function NextM(load: bool, m: M, list: nat, i: nat, at: nat): M
    requires i < 16 && (list % 2 == 1 ==> at + 4 <= |m.mem|)
  { if list % 2 == 1 then FastOne(load, m, i, at) else m }
  function NextAt(list: nat, at: nat): nat { if list % 2 == 1 then at + 4 else at }
  lemma LoopNext(load: bool, m: M, list: nat, i: nat, at: nat)
    requires i <= 15 && 0 < list < Pow2(15 - i) && at % 4 == 0 && at + 4 * Count(list) <= |m.mem|
    ensures i < 15 && list / 2 < Pow2(15 - (i + 1)) && Count(list) == list % 2 + Count(list / 2)
    ensures list % 2 == 1 ==> at + 4 <= |m.mem|
    ensures NextAt(list, at) % 4 == 0 && NextAt(list, at) + 4 * Count(list / 2) <= |m.mem|
    ensures |NextM(load, m, list, i, at).mem| == |m.mem|
    ensures FastLoop(load, m, list, i, at)
      == FastLoop(load, NextM(load, m, list, i, at), list / 2, i + 1, NextAt(list, at))
  {
    hide FastOne, Pow2;
    HalfList(list, i);
    FastStep(load, m, list, i, at);
    hide FastLoop;
  }
  /** The unrolled transfer is the transfer loop. */
  lemma {:induction false} Moved(lay: Lay, code: seq<Ins>, c: Conf, load: bool, list: nat, i: nat, rest: seq<Ins>,
                                 end: nat, m: M, at: nat)
    returns (d: Conf)
    requires Here(code, c, Moves(load, list, i, rest), end) && Shows(c.s, m) && Bounds(lay, |m.mem|)
    requires i <= 15 && list < Pow2(15 - i) && c.s.r0 + 4 * Count(list) < 0x1_0000_0000
    requires at == c.s.r3 + c.s.r0 && at % 4 == 0 && at + 4 * Count(list) <= |m.mem|
    ensures Leads(lay, code, c, d) && Here(code, d, rest, end) && Shows(d.s, FastLoop(load, m, list, i, at))
    ensures Framed(c.s, d.s) && d.pr == c.pr
    decreases list
  {
    hide Here, Leads, Shows, FastOne, MoveOne, Pow2, FastLoop, Count;
    if list == 0 { d := c; Stay(lay, code, c); FastEnd(load, m, i, at); }
    else {
      LoopNext(load, m, list, i, at);
      if list % 2 == 0 { d := Moved(lay, code, c, load, list / 2, i + 1, rest, end, m, at); }
      else {
        ShowsMem(c.s, m);
        var tail := Moves(load, list / 2, i + 1, rest);
        var c1: Conf;
        if load { c1 := MovedLoad(lay, code, c, i, tail, end, m, at); }
        else { c1 := MovedStore(lay, code, c, i, tail, end, m, at); }
        AddSmall(c.s.r0, 4);
        d := Moved(lay, code, c1, load, list / 2, i + 1, rest, end, FastOne(load, m, i, at), at + 4);
        Then(lay, code, c, c1, d);
      }
    }
  }
  lemma ShowsMem(s: Mach, m: M) requires Shows(s, m) ensures s.mem == m.mem {}

  // ---- writeback and cycles -------------------------------------------------------------------

  function Based(op: Opc, m: M, base: Word): M
    requires op.rn < 16
  { if WritesBack(op) then m.(r := m.r[op.rn := AddW(base, Sh4.SExt8(BaseOffset(op)))]) else m }

  lemma WriteBackRun(lay: Lay, s: Mach, m: M, op: Opc)
    requires Shows(s, m) && op.rn < 16
    ensures var d := Run(lay, WriteBack(op), s);
      Shows(d, Based(op, m, s.r1)) && d.r5 == s.r5 && d.r8 == s.r8 && d.r13 == s.r13
  {
    hide Run, Shows, AddW, Sh4.SExt8, BaseOffset, Has;
    if WritesBack(op) {
      Run3(lay, Mov(R1, R2), AddI(BaseOffset(op), R2), StoreGuest(R2, op.rn), s);
      var s1 := s.(r2 := AddW(s.r1, Sh4.SExt8(BaseOffset(op))));
      ShowsGuest(s, s1, m);
      StoreGuestDo(lay, s1, m, R2, op.rn);
    } else { RunNone(lay, s); }
  }
  lemma RunNone(lay: Lay, s: Mach) ensures Run(lay, [], s) == s {}
  lemma CostCellRun(lay: Lay, s: Mach)
    requires s.r5 < 0x1000_0000
    ensures Run(lay, CostCell(), s) == s.(r0 := 2 * Region(s.r5) + 1, r3 := lay.costs, t := false)
  {
    hide Run, Region, Do;
    var a, b := [Mov(R5, R0), Shlr16(R0), Shlr8(R0)], [Shll(R0), AddI(1, R0), LdVec(R3)];
    assert CostCell() == a + b;
    RunAppend(lay, a, b, s);
    RegionSmall(s.r5);
    RegionRun(lay, s); CellRun(lay, s.(r0 := Region(s.r5)));
  }
  lemma RegionRun(lay: Lay, s: Mach)
    ensures Run(lay, [Mov(R5, R0), Shlr16(R0), Shlr8(R0)], s) == s.(r0 := Region(s.r5))
  { hide Run; Run3(lay, Mov(R5, R0), Shlr16(R0), Shlr8(R0), s); RegionOf(s.r5); }
  lemma CellRun(lay: Lay, s: Mach)
    requires s.r0 < 16
    ensures Run(lay, [Shll(R0), AddI(1, R0), LdVec(R3)], s) == s.(r0 := 2 * s.r0 + 1, r3 := lay.costs, t := false)
  { hide Run; Run3(lay, Shll(R0), AddI(1, R0), LdVec(R3), s); }
  lemma MovBack(b: Byte) ensures MovB(b) % 0x100 == b {}
  lemma SmallProduct(n: nat, b: Byte)
    requires n <= 15
    ensures n * b <= 15 * 255 && MulW(n, b) == n * b
  { assert n * b <= 15 * b; }
  lemma SubLo(x: Word, y: Word) ensures SubW(x, y) == Sh4.Lo(x - y) {}
  lemma DebitRun(lay: Lay, s: Mach, n: nat, b: Byte)
    requires 0 < n <= 15 && s.r2 == MovB(b)
    ensures var d := Run(lay, Debit(n), s);
      d.r13 == Sh4.Lo(s.r13 - n * b) && d.file == s.file && d.r11 == s.r11 && d.mem == s.mem && d.r8 == s.r8
  {
    hide Run, MovB, MulW, SubW, Sh4.Lo;
    MovBack(b); SmallProduct(n, b); SubLo(s.r13, n * b);
    if n > 1 { DebitMany(lay, s, n); }
    else {
      assert Debit(n) == [ExtuB(R2, R2), Sub(R2, R13)];
      Run2(lay, ExtuB(R2, R2), Sub(R2, R13), s);
    }
  }
  lemma DebitMany(lay: Lay, s: Mach, n: nat)
    requires 1 < n <= 15
    ensures var p := MulW(n, s.r2 % 0x100);
      Run(lay, Debit(n), s) == s.(r1 := n, r2 := p, macl := p, r13 := SubW(s.r13, p))
  {
    hide Run, MulW, SubW, Do;
    var a, b := [ExtuB(R2, R2), MovI(n, R1)], [MulL(R2, R1), StsMacl(R2), Sub(R2, R13)];
    assert Debit(n) == a + b;
    RunAppend(lay, a, b, s);
    DebitSetUp(lay, s, n);
    DebitDown(lay, s.(r1 := n, r2 := s.r2 % 0x100));
  }
  lemma DebitSetUp(lay: Lay, s: Mach, n: nat)
    requires 1 < n <= 15
    ensures Run(lay, [ExtuB(R2, R2), MovI(n, R1)], s) == s.(r1 := n, r2 := s.r2 % 0x100)
  { hide Run; Run2(lay, ExtuB(R2, R2), MovI(n, R1), s); }
  lemma DebitDown(lay: Lay, s: Mach)
    ensures var p := MulW(s.r1, s.r2);
      Run(lay, [MulL(R2, R1), StsMacl(R2), Sub(R2, R13)], s) == s.(r2 := p, macl := p, r13 := SubW(s.r13, p))
  { hide Run, MulW, SubW; Run3(lay, MulL(R2, R1), StsMacl(R2), Sub(R2, R13), s); }
  lemma CostByte(lay: Lay, e: Env, mem: seq<Byte>, k: nat)
    requires Costs(lay, e) && k < 16 && Bounds(lay, |mem|)
    ensures AddW(2 * k + 1, lay.costs) == lay.costs + 2 * k + 1
    ensures ByteAt(lay, mem, lay.costs + 2 * k + 1) == Sh4.Some(lay.ws(2 * k + 1)) && lay.ws(2 * k + 1) == e.cost(k)
  {}

  /** From the end of the transfer to the end of the code. */
  lemma Finished(lay: Lay, code: seq<Ins>, c: Conf, e: Env, op: Opc, slow: nat, m: M) returns (d: Conf)
    requires Here(code, c, Finish(op), slow) && |code| == slow + 1 && op.rn < 16 && 0 < Count(op.list) <= 15
    requires Shows(c.s, m) && Costs(lay, e) && Bounds(lay, |m.mem|) && c.s.r5 < 0x1000_0000
    ensures Leads(lay, code, c, d) && d.pc == |code| && Shows(d.s, Based(op, m, c.s.r1)) && d.s.r8 == c.s.r8
    ensures d.s.r13 == Sh4.Lo(c.s.r13 - Count(op.list) * e.cost(Region(c.s.r5)))
  {
    hide Here, Leads, Run, AddW, Sh4.Lo, Costs, Count, WriteBack, Debit, Shows, Based, Region;
    var n, k := Count(op.list), Region(c.s.r5);
    RegionSmall(c.s.r5);
    var r3 := [LdB(R3, R2)] + (Debit(n) + [Bra(1), Nop]);
    PureBack(op); PureDebit(n);
    var c1 := Straight(lay, code, c, WriteBack(op), CostCell() + r3, slow);
    WriteBackRun(lay, c.s, m, op); ShowsMem(c1.s, Based(op, m, c.s.r1)); BasedMem(op, m, c.s.r1);
    var c2 := Straight(lay, code, c1, CostCell(), r3, slow);
    CostCellRun(lay, c1.s); CostByte(lay, e, c2.s.mem, k);
    var c3 := Access(lay, code, c2, LdB(R3, R2), Debit(n) + [Bra(1), Nop], slow, c2.s.(r2 := MovB(lay.ws(2 * k + 1))));
    var c4 := Straight(lay, code, c3, Debit(n), [Bra(1), Nop], slow);
    DebitRun(lay, c3.s, n, e.cost(k));
    d := After(c4, 3, c4.s);
    Ended(lay, code, c4, slow);
    ShowsGuest(c1.s, d.s, Based(op, m, c.s.r1));
    Then(lay, code, c, c1, c2); Then(lay, code, c, c2, c3); Then(lay, code, c, c3, c4); Then(lay, code, c, c4, d);
  }
  lemma RegionSmall(a: Word) requires a < 0x1000_0000 ensures Region(a) < 16 {}
  lemma BasedMem(op: Opc, m: M, base: Word)
    requires op.rn < 16
    ensures Based(op, m, base).mem == m.mem
  {}
  lemma PureBack(op: Opc) ensures AllPure(WriteBack(op)) {}
  lemma PureDebit(n: nat) ensures AllPure(Debit(n)) {}
  lemma Ended(lay: Lay, code: seq<Ins>, c: Conf, slow: nat)
    requires Here(code, c, [Bra(1), Nop], slow) && |code| == slow + 1
    ensures Leads(lay, code, c, After(c, 3, c.s)) && c.pc + 3 == |code|
  {
    hide Leads, Sh4Mem.Next;
    AtIndex(code, c.pc, [Bra(1), Nop], 0); AtIndex(code, c.pc, [Bra(1), Nop], 1);
    NextBra(lay, code, c, 1);
    One(lay, code, c, After(c, 3, c.s));
  }

  // ---- guards -----------------------------------------------------------------------------------

  /** Either the guard sends control to the slow path at `slow`, or `rest` comes next. */
  lemma Guard(lay: Lay, code: seq<Ins>, c: Conf, slowIfT: bool, rest: seq<Ins>, slow: nat) returns (d: Conf)
    requires Here(code, c, Guarded(slowIfT, rest), slow)
    ensures Leads(lay, code, c, d) && d.s == c.s && d.pr == c.pr
    ensures if c.s.t == slowIfT then d.pc == slow else Here(code, d, rest, slow)
  {
    hide Leads, At;
    var far := [Bra(|rest|), Nop] + rest;
    assert far[2..] == rest;
    assert Guarded(slowIfT, rest) == [if !slowIfT then Bt(2 - 1) else Bf(2 - 1)] + far;
    d := Skip(lay, code, c, !slowIfT, 2, far, slow);
    if c.s.t == slowIfT {
      assert far[0..] == far;
      var d1 := Over(lay, code, d, |rest|, rest, slow);
      Then(lay, code, c, d, d1);
      d := d1;
    }
  }

  /** Guest state as it was. */
  ghost predicate Kept(s: Mach, d: Mach) {
    d.file == s.file && d.r11 == s.r11 && d.mem == s.mem && d.r8 == s.r8 && d.r13 == s.r13
  }
  /** Base, page and address registers as they were. */
  ghost predicate Bases(s: Mach, d: Mach) { d.r1 == s.r1 && d.r3 == s.r3 && d.r5 == s.r5 }

  function TagAt(e: Env, a: nat): int {
    if Region(a) == 2 then e.ewram + 0x4_0000 + a % 0x4_0000 else e.iwram - 0x8000 + a % 0x8000
  }
  lemma TagNext(e: Env, a: nat)
    requires a % 4 == 0 && a % 0x8000 + 8 <= 0x8000
    ensures TagAt(e, a + 4) == TagAt(e, a) + 4 && (a + 4) % 0x8000 == a % 0x8000 + 4 && Region(a + 4) == Region(a)
  {
    ModUnique(a + 4, 0x8000, a / 0x8000, a % 0x8000 + 4);
    DivDiv(a, 0x8000, 512); DivDiv(a + 4, 0x8000, 512);
    PageSplit(a); PageSplit(a + 4);
  }
  lemma PageSplit(a: nat) ensures a % 0x4_0000 == a / 0x8000 % 8 * 0x8000 + a % 0x8000
  {
    var p: int, r: int := a / 0x8000, a % 0x8000;
    ModUnique(a, 0x4_0000, p / 8, p % 8 * 0x8000 + r);
  }
  lemma RawZero(bs: seq<Byte>)
    requires |bs| == 4
    ensures Raw(bs) == 0 <==> bs[0] == 0 && bs[1] == 0 && bs[2] == 0 && bs[3] == 0
  {}
  lemma WordsOf(a: nat) requires a % 4 == 0 ensures a % 0x4_0000 % 4 == 0 && a % 0x4_0000 + 4 <= 0x4_0000 && a % 0x8000 % 4 == 0 && a % 0x8000 + 4 <= 0x8000
  { Multiples(a); WordBelow(a % 0x4_0000, 0x4_0000); WordBelow(a % 0x8000, 0x8000); }
  lemma WordBelow(x: nat, y: nat) requires x % 4 == 0 && y % 4 == 0 && x < y ensures x + 4 <= y {}
  /** The tag word under a guest word is zero exactly when no byte of it is tagged. */
  lemma TagClear(e: Env, mem: seq<Byte>, a: nat)
    requires TagsIn(e, mem) && Region(a) in {2, 3} && a % 4 == 0
    ensures 0 <= TagAt(e, a) && TagAt(e, a) % 4 == 0 && TagAt(e, a) + 4 <= |mem|
    ensures Raw(mem[TagAt(e, a)..TagAt(e, a) + 4]) == 0 <==> !Tagged(e, a)
  {
    WordsOf(a);
    var t := TagAt(e, a);
    RawZero(mem[t..t + 4]);
    if Region(a) == 2 { Quad(mem, e.etags, e.ewram + 0x4_0000, a % 0x4_0000); }
    else { Quad(mem, e.itags, e.iwram - 0x8000, a % 0x8000); }
    hide Raw;
  }
  lemma Quad(mem: seq<Byte>, tags: seq<bool>, base: nat, o: nat)
    requires base + |tags| <= |mem| && o + 4 <= |tags|
    requires forall i :: 0 <= i < |tags| ==> (mem[base + i] != 0 <==> tags[i])
    ensures (exists i :: o <= i < o + 4 && i < |tags| && tags[i])
      <==> mem[base + o] != 0 || mem[base + o + 1] != 0 || mem[base + o + 2] != 0 || mem[base + o + 3] != 0
  {
    assert mem[base + o] != 0 <==> tags[o];
    assert mem[base + (o + 1)] != 0 <==> tags[o + 1];
    assert mem[base + (o + 2)] != 0 <==> tags[o + 2];
    assert mem[base + (o + 3)] != 0 <==> tags[o + 3];
    if i :| o <= i < o + 4 && i < |tags| && tags[i] { assert i == o || i == o + 1 || i == o + 2 || i == o + 3; }
  }

  lemma {:induction false} Scanned(lay: Lay, code: seq<Ins>, c: Conf, e: Env, k: nat, n: nat, rest: seq<Ins>, slow: nat,
                                   a: nat) returns (d: Conf)
    requires Here(code, c, ScanWords(k, n, rest), slow) && Bounds(lay, |c.s.mem|) && TagsIn(e, c.s.mem) && k <= n <= 15
    requires k > 0 ==>
      a % 4 == 0 && Region(a) in {2, 3} && a % 0x8000 + 4 * k <= 0x8000 && c.s.r6 + c.s.r0 == TagAt(e, a)
    requires 4 * (n - k) <= c.s.r0 <= 0x8000 + 4 * (n - k)
    ensures Leads(lay, code, c, d) && Kept(c.s, d.s) && Bases(c.s, d.s) && d.pr == c.pr
    ensures if Untagged(e, a, k) then Here(code, d, rest, slow) && d.s.r0 == c.s.r0 - 4 * (n - k) else d.pc == slow
    decreases k
  {
    hide Here, Leads, Run, Tagged, Raw, WordAt, AddW, TagAt, Region, TagsIn, Sh4.SExt8;
    if k == 0 {
      d := Straight(lay, code, c, [AddI(0 - 4 * n, R0)], rest, slow);
      Run1(lay, AddI(0 - 4 * n, R0), c.s);
      SmallImm(0 - 4 * n); AddLo(c.s.r0, 0 - 4 * n); LoWord(c.s.r0 - 4 * n);
    } else {
      TagLengths(e, c.s.mem); TagClear(e, c.s.mem, a); AddSmall(c.s.r0, c.s.r6);
      var t := TagAt(e, a);
      RamWord(lay, c.s.mem, t);
      var more := [AddI(4, R0)] + ScanWords(k - 1, n, rest);
      var c1 := Access(lay, code, c, LdL(R6, R4), [Tst(R4, R4)] + Guarded(false, more), slow,
          c.s.(r4 := Raw(c.s.mem[t..t + 4])));
      var c2 := Tested(lay, code, c1, Guarded(false, more), slow);
      d := Guard(lay, code, c2, false, more, slow);
      Then(lay, code, c, c1, c2); Then(lay, code, c, c2, d);
      if !Tagged(e, a) {
        var c4 := Straight(lay, code, d, [AddI(4, R0)], ScanWords(k - 1, n, rest), slow);
        NextWord(lay, d.s); AddSmall(d.s.r0, 4);
        if k > 1 { TagNext(e, a); }
        Then(lay, code, c, d, c4);
        d := Scanned(lay, code, c4, e, k - 1, n, rest, slow, a + 4);
        Then(lay, code, c, c4, d);
      }
    }
  }
  lemma TagLengths(e: Env, mem: seq<Byte>)
    requires TagsIn(e, mem)
    ensures |e.etags| == 0x4_0000 && |e.itags| == 0x8000
  {}
  lemma Tested(lay: Lay, code: seq<Ins>, c: Conf, rest: seq<Ins>, end: nat) returns (d: Conf)
    requires Here(code, c, [Tst(R4, R4)] + rest, end)
    ensures d == After(c, 1, c.s.(t := c.s.r4 == 0)) && Leads(lay, code, c, d) && Here(code, d, rest, end)
  {
    hide Here, Leads, Run, AndW;
    d := Straight(lay, code, c, [Tst(R4, R4)], rest, end);
    Run1(lay, Tst(R4, R4), c.s); TestSelf(c.s.r4);
  }

  // ---- the tag scan ---------------------------------------------------------------------------

  lemma {:induction false} ScanLength(k: nat, n: nat, rest: seq<Ins>)
    ensures |ScanWords(k, n, rest)| == 6 * k + 1 + |rest| && ScanWords(k, n, rest)[6 * k + 1..] == rest
  {
    if k > 0 {
      ScanLength(k - 1, n, rest);
      var sub := ScanWords(k - 1, n, rest);
      assert ScanWords(k, n, rest)[6..] == sub;
      assert ScanWords(k, n, rest)[6 * k + 1..] == sub[6 * (k - 1) + 1..];
    }
  }
  lemma PageAndRegion(lay: Lay, s: Mach)
    ensures Run(lay, [Mov(R3, R6)] + IsRegion(2), s)
      == s.(r6 := s.r3, r2 := Region(s.r5), r4 := 2, t := Region(s.r5) == 2)
  {
    hide Run, Region;
    RunAppend(lay, [Mov(R3, R6)], IsRegion(2), s);
    Run1(lay, Mov(R3, R6), s);
    IsRegionRun(lay, s.(r6 := s.r3), 2);
  }
  lemma TagOffset(lay: Lay, s: Mach, v: Word)
    ensures Run(lay, [Const(v, R4), Add(R4, R6)], s) == s.(r4 := v, r6 := AddW(s.r6, v))
  { hide Run, AddW; Run2(lay, Const(v, R4), Add(R4, R6), s); }

  lemma TagPaged(lay: Lay, code: seq<Ins>, c: Conf, rest: seq<Ins>, end: nat) returns (d: Conf)
    requires Here(code, c, TagPage() + rest, end)
    ensures Leads(lay, code, c, d) && Here(code, d, rest, end) && Kept(c.s, d.s) && Bases(c.s, d.s) && d.pr == c.pr
    ensures d.s.r0 == c.s.r0
    ensures d.s.r6 == AddW(c.s.r3, if Region(c.s.r5) == 2 then 0x4_0000 else 0xFFFF_8000)
  {
    hide Here, Leads, Run, AddW, Region, Do;
    var head, low := [Mov(R3, R6)] + IsRegion(2), [Const(0xFFFF_8000, R4), Add(R4, R6)] + rest;
    var both := [Const(0x4_0000, R4), Add(R4, R6)] + ([Bra(2), Nop] + low);
    assert TagPage() + rest == head + ([Bf(4 - 1)] + both);
    var c1 := Straight(lay, code, c, head, [Bf(4 - 1)] + both, end);
    PageAndRegion(lay, c.s);
    var c2 := Skip(lay, code, c1, false, 4, both, end);
    assert both[0..] == both && both[4..] == low && low[2..] == rest;
    Then(lay, code, c, c1, c2);
    if c1.s.t {
      var c3 := Straight(lay, code, c2, [Const(0x4_0000, R4), Add(R4, R6)], [Bra(2), Nop] + low, end);
      TagOffset(lay, c2.s, 0x4_0000);
      d := Over(lay, code, c3, 2, low, end);
      Then(lay, code, c, c2, c3); Then(lay, code, c, c3, d);
    } else {
      d := Straight(lay, code, c2, [Const(0xFFFF_8000, R4), Add(R4, R6)], rest, end);
      TagOffset(lay, c2.s, 0xFFFF_8000);
      Then(lay, code, c, c2, d);
    }
  }

  /** R3 holds the page of the address in R5, R0 the offset in it. */
  ghost predicate InPageAt(e: Env, s: Mach, a: Word) {
    Mapped(e, a) && s.r5 == a && s.r3 == e.pages[a / 0x8000] && s.r0 == a % 0x8000
  }
  lemma TagBase(e: Env, m: M, a: Word)
    requires Blocks.Valid(e, m) && TagsIn(e, m.mem) && Mapped(e, a) && Region(a) in {2, 3}
    requires e.pages[a / 0x8000] + 0x8000 <= |m.mem| <= 0x1_0000_0000
    requires e.pages[a / 0x8000] < 0x1_0000_0000
    ensures AddW(e.pages[a / 0x8000], if Region(a) == 2 then 0x4_0000 else 0xFFFF_8000) + a % 0x8000 == TagAt(e, a)
  {
    PageSplit(a); DivDiv(a, 0x8000, 512);
  }

  /** The scan goes on exactly when the destination holds no translated code. */
  lemma ScanDone(lay: Lay, code: seq<Ins>, c: Conf, e: Env, m: M, n: nat, rest: seq<Ins>, slow: nat, a: Word)
    returns (d: Conf)
    requires Here(code, c, Scan(n, rest), slow) && Bounds(lay, |m.mem|) && Blocks.Valid(e, m) && TagsIn(e, m.mem)
    requires c.s.mem == m.mem
    requires 0 < n <= 15 && InPageAt(e, c.s, a) && a % 4 == 0 && a % 0x8000 + 4 * n <= 0x8000 && Region(a) in {2, 3, 6}
    ensures Leads(lay, code, c, d) && Kept(c.s, d.s) && Bases(c.s, d.s) && d.pr == c.pr
    ensures if Region(a) == 6 || Untagged(e, a, n) then Here(code, d, rest, slow) && d.s.r0 == c.s.r0 else d.pc == slow
  {
    hide Here, Leads, Run, AddW, Region, Do, Blocks.Valid, TagsIn, TagAt, Untagged, TagPage, ScanWords;
    TagLengths(e, m.mem); TagPageLength();
    var scan := ScanWords(n, n, rest);
    var both := TagPage() + scan;
    var k := |TagPage()| + 6 * n + 1;
    ScanLength(n, n, rest);
    assert both[k..] == scan[6 * n + 1..] && both[0..] == both;
    var c1 := Straight(lay, code, c, IsRegion(6), [Bt(k - 1)] + both, slow);
    IsRegionRun(lay, c.s, 6);
    var c2 := Skip(lay, code, c1, true, k, both, slow);
    Then(lay, code, c, c1, c2);
    if Region(a) == 6 { d := c2; }
    else {
      var c3 := TagPaged(lay, code, c2, scan, slow);
      MappedRoom(e, m, a);
      TagBase(e, m, a);
      d := Scanned(lay, code, c3, e, n, n, rest, slow, a);
      Then(lay, code, c, c2, c3); Then(lay, code, c, c3, d);
    }
  }
  lemma TagPageLength() ensures |TagPage()| == 13 {}
  lemma MappedRoom(e: Env, m: M, a: Word)
    requires Blocks.Valid(e, m) && Mapped(e, a)
    ensures e.pages[a / 0x8000] + 0x8000 <= |m.mem|
  {}

  // ---- the inline form ---------------------------------------------------------------------------

  /** One translated opcode on one machine state that shows the guest state m. */
  datatype Job = Job(lay: Lay, code: seq<Ins>, slow: nat, e: Env, op: Opc, m: M, s: Mach)

  ghost predicate Wired(j: Job) {
    Blocks.Valid(j.e, j.m) && Laid(j.lay, j.e, j.m.mem) && Native(j.op) && Shows(j.s, j.m) && 0 < Count(j.op.list) <= 15
  }
  function BaseOf(j: Job): Word { if j.op.rn < 16 then j.m.r[j.op.rn] else 0 }
  function AddrOf(j: Job): Word { Start(j.op, BaseOf(j)) }
  ghost predicate Passes(j: Job) {
    |j.e.etags| == 0x4_0000 && |j.e.itags| == 0x8000 && Guards(j.e, j.op.load, AddrOf(j), Count(j.op.list))
  }
  /** On the way: guest state untouched, the first address in R5, the base in R1. */
  ghost predicate Stage(j: Job, c: Conf) { Wired(j) && Kept(j.s, c.s) && c.s.r5 == AddrOf(j) && c.s.r1 == BaseOf(j) }
  /** The end: the fast transfer done and paid for, or the slow path with the guest untouched. */
  ghost predicate Met(j: Job, d: Conf) {
    if Passes(j) then
      d.pc == j.slow + 1 && j.op.rn < 16 && Native(j.op) && Mapped(j.e, AddrOf(j))
      && GuestIs(j.s, j.m, d.s, Fast(j.e, j.op, j.m))
    else d.pc == j.slow && Kept(j.s, d.s)
  }
  /** The guest after `f`: registers, memory, CPSR, the cycle counter debited by what `f` added,
      no device store and no code alert. */
  ghost predicate GuestIs(s0: Mach, m: M, s: Mach, f: M) {
    Shows(s, f) && s.r8 == s0.r8 && s.r13 == Sh4.Lo(s0.r13 - (f.cycles - m.cycles)) && f.dev == m.dev
    && f.alert == m.alert
  }

  lemma {:induction false} FastSize(load: bool, m: M, list: nat, i: nat, at: nat)
    ensures |FastLoop(load, m, list, i, at).mem| == |m.mem|
    decreases list
  {
    hide FastOne;
    if list != 0 && i < 16 {
      if list % 2 == 0 { FastSize(load, m, list / 2, i + 1, at); }
      else if at + 4 <= |m.mem| { FastSize(load, FastOne(load, m, i, at), list / 2, i + 1, at + 4); }
    }
  }
  lemma FastShape(e: Env, op: Opc, m: M, a: Word)
    requires Native(op) && a == Start(op, m.r[op.rn]) && Mapped(e, a)
    ensures Fast(e, op, m).cycles == m.cycles + Count(op.list) * WordCost(e, op.load, a)
    ensures var m1 := FastLoop(op.load, m, op.list, 0, HostAt(e, a));
      Fast(e, op, m) == Based(op, m1, m.r[op.rn]).(cycles := Fast(e, op, m).cycles)
      && m1.cycles == m.cycles && m1.dev == m.dev && m1.alert == m.alert && |m1.mem| == |m.mem|
  {
    hide FastLoop, Region, HostAt, Mapped, Count, Start, Has, WordCost, AddW, Sh4.SExt8, BaseOffset;
    FastKeeps(op.load, m, op.list, 0, HostAt(e, a));
    FastSize(op.load, m, op.list, 0, HostAt(e, a));
  }
  lemma Price(j: Job)
    requires Wired(j) && Passes(j)
    ensures WordCost(j.e, j.op.load, AddrOf(j)) == j.e.cost(Region(AddrOf(j)))
  {
    hide Region, Blocks.Valid, Laid, Shows, Count, Start, Has, WordCost;
    GuardsSpan(j.e, j.op.load, AddrOf(j), Count(j.op.list));
    WordCostIs(j.e, j.m, j.op.load, AddrOf(j));
  }
  /** Where the guarded run lies on the host. */
  lemma RunPlace(j: Job)
    requires Wired(j) && Passes(j)
    ensures var a, n := AddrOf(j), Count(j.op.list);
      Mapped(j.e, a) && a % 4 == 0 && HostAt(j.e, a) % 4 == 0 && HostAt(j.e, a) + 4 * n <= |j.m.mem| && a < 0x1000_0000
  {
    hide Count, Start, Shows, Sh4.Lo, Region, BaseOf;
    GuardsSpan(j.e, j.op.load, AddrOf(j), Count(j.op.list));
    OnePlace(j.lay, j.e, j.m, j.op.load, AddrOf(j), Count(j.op.list));
  }
  lemma OnePlace(lay: Lay, e: Env, m: M, load: bool, a: Word, n: nat)
    requires Blocks.Valid(e, m) && Laid(lay, e, m.mem) && 0 < n && Guards(e, load, a, n) && Mapped(e, a)
    requires Span(e, load, a, n)
    requires !load ==> Region(a) in {2, 3, 6}
    ensures a % 4 == 0 && HostAt(e, a) % 4 == 0 && HostAt(e, a) + 4 * n <= |m.mem|
  {
    if !load { DivDiv(a, 0x8000, 512); Multiples(a); SumWord(e.pages[a / 0x8000], a % 0x8000); }
    hide Untagged, TagsIn, Bounds, Sh4.Lo;
  }
  lemma SumWord(x: nat, y: nat) requires x % 4 == 0 && y % 4 == 0 ensures (x + y) % 4 == 0 {}
  lemma {:induction false} FastBits(op: Opc) requires Native(op) ensures op.list < Pow2(15) { FifteenBits(); }

  lemma Transferred(j: Job, c: Conf) returns (d: Conf)
    requires Stage(j, c) && Passes(j) && InPageAt(j.e, c.s, AddrOf(j)) && |j.code| == j.slow + 1
    requires Here(j.code, c, Moves(j.op.load, j.op.list, 0, Finish(j.op)), j.slow)
    ensures Leads(j.lay, j.code, c, d) && Met(j, d)
  {
    hide Here, Leads, Moves, Finish, FastLoop, Region, Blocks.Valid, Count, Start, Has, Based, AddW, Sh4.Lo, Guards,
         Pow2, Fast, TagsIn, Shows, Costs, Bounds;
    RunPlace(j); Price(j); FastBits(j.op);
    var a := AddrOf(j);
    FastShape(j.e, j.op, j.m, a);
    var at := HostAt(j.e, a);
    ShowsGuest2(j.s, c.s, j.m);
    var c1 := Moved(j.lay, j.code, c, j.op.load, j.op.list, 0, Finish(j.op), j.slow, j.m, at);
    d := Finished(j.lay, j.code, c1, j.e, j.op, j.slow, FastLoop(j.op.load, j.m, j.op.list, 0, at));
    Then(j.lay, j.code, c, c1, d);
    ShowsCycles(d.s, Based(j.op, FastLoop(j.op.load, j.m, j.op.list, 0, at), BaseOf(j)), Fast(j.e, j.op, j.m).cycles);
    BasedSame(j.op, FastLoop(j.op.load, j.m, j.op.list, 0, at), BaseOf(j));
  }
  lemma ShowsGuest2(s: Mach, d: Mach, m: M) requires Shows(s, m) && Kept(s, d) ensures Shows(d, m) {}
  lemma ShowsCycles(s: Mach, m: M, n: nat) requires Shows(s, m) ensures Shows(s, m.(cycles := n)) {}
  lemma BasedSame(op: Opc, m: M, base: Word)
    requires op.rn < 16
    ensures var b := Based(op, m, base); b.cycles == m.cycles && b.dev == m.dev && b.alert == m.alert
  {}

  /** The guards before the page lookup, and after it. */
  ghost predicate OnePageOk(j: Job) { AddrOf(j) / 0x8000 == Sh4.Lo(AddrOf(j) + 4 * Count(j.op.list) - 1) / 0x8000 }
  ghost predicate RegionOk(j: Job) {
    AddrOf(j) < 0x1000_0000
    && if j.op.load then Region(AddrOf(j)) != 0 else Region(AddrOf(j)) == 6 || Region(AddrOf(j)) / 2 == 1
  }
  ghost predicate HostOk(j: Job)
    requires Mapped(j.e, AddrOf(j)) && |j.e.etags| == 0x4_0000 && |j.e.itags| == 0x8000
  {
    if j.op.load then HostAt(j.e, AddrOf(j)) % 4 == 0
    else Region(AddrOf(j)) == 6 || Untagged(j.e, AddrOf(j), Count(j.op.list))
  }
  lemma PassesIff(j: Job)
    requires Wired(j)
    ensures |j.e.etags| == 0x4_0000 && |j.e.itags| == 0x8000
    ensures Passes(j) <==> OnePageOk(j) && RegionOk(j) && Mapped(j.e, AddrOf(j)) && HostOk(j)
    ensures AddrOf(j) % 4 == 0
  {
    hide Count, Region, Untagged, Sh4.Lo, Laid, Shows, Start, Has;
    StartAligned(j.op, BaseOf(j));
  }
  lemma StartAligned(op: Opc, base: Word)
    ensures Start(op, base) % 4 == 0
  {
    hide Count;
    ClearLow(base);
    SumWraps(Down(base), Sh4.SExt8(Offset(op)));
  }
  lemma SumWraps(x: Word, y: Word) requires x % 4 == 0 && y % 4 == 0 ensures AddW(x, y) % 4 == 0 {}

  lemma Admitting(j: Job, c: Conf) returns (d: Conf)
    requires Stage(j, c) && InPageAt(j.e, c.s, AddrOf(j)) && |j.code| == j.slow + 1 && OnePageOk(j) && RegionOk(j)
    requires var moves := Moves(j.op.load, j.op.list, 0, Finish(j.op));
      Here(j.code, c, if j.op.load then HostAligned() + Guarded(false, moves) else Scan(Count(j.op.list), moves),
          j.slow)
    ensures Leads(j.lay, j.code, c, d) && Met(j, d)
  {
    hide Here, Leads, Moves, Finish, Region, Blocks.Valid, Start, TagsIn, Bounds, Shows, Costs, Run, Do, AddW, Sh4.Lo,
         Untagged, OnePageOk, Passes, Native, Scan, Count;
    PassesIff(j);
    var moves := Moves(j.op.load, j.op.list, 0, Finish(j.op));
    var a := AddrOf(j);
    var c1: Conf;
    if j.op.load {
      var c0 := Straight(j.lay, j.code, c, HostAligned(), Guarded(false, moves), j.slow);
      HostAlignedRun(j.lay, c.s); HostSmall(j, c.s);
      c1 := Guard(j.lay, j.code, c0, false, moves, j.slow);
      Then(j.lay, j.code, c, c0, c1);
    } else {
      StoreRegions(j); ShowsMem(j.s, j.m);
      c1 := ScanDone(j.lay, j.code, c, j.e, j.m, Count(j.op.list), moves, j.slow, a);
    }
    if HostOk(j) {
      d := Transferred(j, c1);
      Then(j.lay, j.code, c, c1, d);
    } else { d := c1; }
  }
  lemma HostSmall(j: Job, s: Mach)
    requires Wired(j) && InPageAt(j.e, s, AddrOf(j))
    ensures AddW(s.r0, s.r3) == HostAt(j.e, AddrOf(j))
  {
    hide Start, Shows, Costs, TagsIn, Count, Region;
    MappedRoom(j.e, j.m, AddrOf(j));
  }
  lemma StoreRegions(j: Job)
    requires Wired(j) && OnePageOk(j) && RegionOk(j) && !j.op.load
    ensures Region(AddrOf(j)) in {2, 3, 6} && AddrOf(j) % 0x8000 + 4 * Count(j.op.list) <= 0x8000
  {
    hide Start, Shows, Laid, Blocks.Valid, Count, Region, Native;
    PageFits(AddrOf(j), Count(j.op.list));
  }
  lemma PageFits(a: Word, n: nat)
    requires 0 < n <= 15 && a < 0x1000_0000 && a / 0x8000 == Sh4.Lo(a + 4 * n - 1) / 0x8000
    ensures a % 0x8000 + 4 * n <= 0x8000
  { LoWord(a + 4 * n - 1); OnePage(a, 4 * n); hide Sh4.Lo; }

  lemma TableWord(j: Job, s: Mach)
    requires Wired(j) && AddrOf(j) < 0x1000_0000 && s.mem == j.m.mem && s.r0 == 4 * (AddrOf(j) / 0x8000)
    requires s.r3 == j.lay.table
    ensures var p := AddrOf(j) / 0x8000;
      WordAt(j.lay, s.mem, AddW(s.r0, s.r3)) == Sh4.Some(j.lay.entry(p))
      && (j.lay.entry(p) == 0 <==> p !in j.e.pages) && (p in j.e.pages ==> j.lay.entry(p) == j.e.pages[p])
  {
    hide Start, Shows, Costs, TagsIn, Count, Region, Native, Blocks.Valid;
    TableAt(j.lay, AddrOf(j) / 0x8000, s.mem);
  }
  lemma TableAt(lay: Lay, p: nat, mem: seq<Byte>)
    requires Bounds(lay, |mem|) && p < 0x2000
    ensures AddW(4 * p, lay.table) == lay.table + 4 * p && WordAt(lay, mem, lay.table + 4 * p) == Sh4.Some(lay.entry(p))
  {}
  lemma Tested3(lay: Lay, code: seq<Ins>, c: Conf, rest: seq<Ins>, end: nat) returns (d: Conf)
    requires Here(code, c, [Tst(R3, R3)] + rest, end)
    ensures d == After(c, 1, c.s.(t := c.s.r3 == 0)) && Leads(lay, code, c, d) && Here(code, d, rest, end)
  {
    hide Here, Leads, Run, AndW;
    d := Straight(lay, code, c, [Tst(R3, R3)], rest, end);
    Run1(lay, Tst(R3, R3), c.s); TestSelf(c.s.r3);
  }

  lemma Paged(j: Job, c: Conf) returns (d: Conf)
    requires Stage(j, c) && |j.code| == j.slow + 1 && OnePageOk(j) && RegionOk(j)
    requires Here(j.code, c, FromPage(j.op, j.lay.table), j.slow)
    ensures Leads(j.lay, j.code, c, d) && Met(j, d)
  {
    hide Here, Leads, Moves, Finish, Region, Blocks.Valid, Start, TagsIn, Bounds, Shows, Costs, Run, Do, AddW, Sh4.Lo,
         Untagged, OnePageOk, Passes, Native, Scan, Count, HostOk, Laid, Guarded, InPage, WordAt;
    PassesIff(j); ShowsMem(j.s, j.m);
    var a := AddrOf(j);
    var p := a / 0x8000;
    var moves := Moves(j.op.load, j.op.list, 0, Finish(j.op));
    var last := if j.op.load then HostAligned() + Guarded(false, moves) else Scan(Count(j.op.list), moves);
    var r2 := [Tst(R3, R3)] + Guarded(true, InPage() + last);
    var c1 := Straight(j.lay, j.code, c, PageIndex(j.lay.table), [LdL(R3, R3)] + r2, j.slow);
    PageIndexRun(j.lay, c.s, j.lay.table); TableWord(j, c1.s);
    var c2 := Access(j.lay, j.code, c1, LdL(R3, R3), r2, j.slow, c1.s.(r3 := j.lay.entry(p)));
    var c3 := Tested3(j.lay, j.code, c2, Guarded(true, InPage() + last), j.slow);
    var c4 := Guard(j.lay, j.code, c3, true, InPage() + last, j.slow);
    Then(j.lay, j.code, c, c1, c2); Then(j.lay, j.code, c, c2, c3); Then(j.lay, j.code, c, c3, c4);
    if p in j.e.pages {
      InPagePure();
      var c5 := Straight(j.lay, j.code, c4, InPage(), last, j.slow);
      InPageRun(j.lay, c4.s);
      d := Admitting(j, c5);
      Then(j.lay, j.code, c, c4, c5); Then(j.lay, j.code, c, c5, d);
    } else { d := c4; }
  }
  lemma InPagePure() ensures AllPure(InPage()) {}

  lemma Regioned(j: Job, c: Conf) returns (d: Conf)
    requires Stage(j, c) && |j.code| == j.slow + 1 && OnePageOk(j) && AddrOf(j) < 0x1000_0000
    requires Here(j.code, c, FromRegion(j.op, j.lay.table), j.slow)
    ensures Leads(j.lay, j.code, c, d) && Met(j, d)
  {
    hide Here, Leads, Region, Wired, Start, Run, Do, OnePageOk, Passes, HostOk, Guarded, FromPage, Met;
    PassesIff(j);
    var page := FromPage(j.op, j.lay.table);
    var c2: Conf;
    if j.op.load {
      var c1 := Straight(j.lay, j.code, c, LoadRegion(), Guarded(true, page), j.slow);
      LoadRegionRun(j.lay, c.s);
      c2 := Guard(j.lay, j.code, c1, true, page, j.slow);
      Then(j.lay, j.code, c, c1, c2);
    } else { c2 := StoreRegioned(j, c); }
    if RegionOk(j) {
      d := Paged(j, c2);
      Then(j.lay, j.code, c, c2, d);
    } else { d := c2; Refused(j, d); }
  }
  lemma Refused(j: Job, d: Conf)
    requires !Passes(j) && d.pc == j.slow && Kept(j.s, d.s)
    ensures Met(j, d)
  {}
  lemma StoreRegioned(j: Job, c: Conf) returns (d: Conf)
    requires Stage(j, c) && !j.op.load && AddrOf(j) < 0x1000_0000
    requires Here(j.code, c, FromRegion(j.op, j.lay.table), j.slow)
    ensures Leads(j.lay, j.code, c, d) && Stage(j, d) && d.pr == c.pr
    ensures if RegionOk(j) then Here(j.code, d, FromPage(j.op, j.lay.table), j.slow) else d.pc == j.slow
  {
    hide Here, Leads, Region, Wired, Start, Run, Do, FromPage;
    var page := FromPage(j.op, j.lay.table);
    var last := InRam() + Guarded(false, page);
    assert last[0..] == last && last[5..] == page;
    assert FromRegion(j.op, j.lay.table) == StoreRegion() + ([Bt(5 - 1)] + last);
    var c1 := Straight(j.lay, j.code, c, StoreRegion(), [Bt(5 - 1)] + last, j.slow);
    StoreRegionRun(j.lay, c.s);
    d := Skip(j.lay, j.code, c1, true, 5, last, j.slow);
    Then(j.lay, j.code, c, c1, d);
    if !c1.s.t {
      var c3 := Straight(j.lay, j.code, d, InRam(), Guarded(false, page), j.slow);
      InRamRun(j.lay, d.s);
      Then(j.lay, j.code, c, d, c3);
      d := Guard(j.lay, j.code, c3, false, page, j.slow);
      Then(j.lay, j.code, c, c3, d);
    }
  }

  lemma HeadRun(lay: Lay, s: Mach, m: M, op: Opc)
    requires Shows(s, m) && op.rn < 16
    ensures Run(lay, Head(op), s) == s.(r1 := m.r[op.rn], r5 := Start(op, m.r[op.rn]))
  {
    hide Run, Shows, AddW, Sh4.SExt8, Offset, Sh4.Shl2, Do;
    var i := LoadGuest(op.rn, R1);
    LoadGuestDo(lay, s, m, op.rn, R1);
    var s1 := s.(r1 := m.r[op.rn]);
    Run1(lay, i, s);
    RunAppend(lay, [i], StartSeg(op), s);
    assert Head(op) == [i] + StartSeg(op);
    StartRun(lay, s1, op);
  }
  function StartSeg(op: Opc): seq<Ins> { [Mov(R1, R5), Shlr2(R5), Shll2(R5), AddI(Offset(op), R5)] }
  lemma StartRun(lay: Lay, s: Mach, op: Opc)
    ensures Run(lay, StartSeg(op), s) == s.(r5 := Start(op, s.r1))
  {
    hide Run, AddW, Sh4.SExt8, Offset, Sh4.Shl2;
    Run4(lay, Mov(R1, R5), Shlr2(R5), Shll2(R5), AddI(Offset(op), R5), s);
  }

  /** The inline code of every accepted LDM/STM: when the guards hold it ends past the slow path
      with the fast transfer made and paid for; otherwise it reaches the slow path with the guest
      as it was. */
  lemma InlineRuns(j: Job, c: Conf) returns (d: Conf)
    requires Wired(j) && j.code == Inline(j.op, j.lay.table) && j.slow == |Main(j.op, j.lay.table)| && c.pc == 0
    requires c.s == j.s
    ensures Leads(j.lay, j.code, c, d) && Met(j, d)
  {
    hide Here, Leads, Start, Run, Do, Passes, Guarded, FromRegion, Met, Laid, Blocks.Valid, Shows, Head, Straddle,
         Count, Has;
    PassesIff(j);
    var n, table := Count(j.op.list), j.lay.table;
    var region := FromRegion(j.op, table);
    var bound := Bound() + Guarded(true, region);
    AtStart(j.code, c, Main(j.op, table), [Slow]);
    PureHead(j.op, n);
    var c1 := Straight(j.lay, j.code, c, Head(j.op), Straddle(n) + Guarded(false, bound), j.slow);
    HeadRun(j.lay, c.s, j.m, j.op);
    var c2 := Straight(j.lay, j.code, c1, Straddle(n), Guarded(false, bound), j.slow);
    StraddleRun(j.lay, c1.s, n);
    var c3 := Guard(j.lay, j.code, c2, false, bound, j.slow);
    Then(j.lay, j.code, c, c1, c2); Then(j.lay, j.code, c, c2, c3);
    if OnePageOk(j) {
      var c4 := Straight(j.lay, j.code, c3, Bound(), Guarded(true, region), j.slow);
      BoundRun(j.lay, c3.s);
      var c5 := Guard(j.lay, j.code, c4, true, region, j.slow);
      Then(j.lay, j.code, c, c3, c4); Then(j.lay, j.code, c, c4, c5);
      if AddrOf(j) < 0x1000_0000 {
        d := Regioned(j, c5);
        Then(j.lay, j.code, c, c5, d);
      } else { d := c5; Refused(j, d); }
    } else { d := c3; Refused(j, d); }
  }
  lemma AtStart(code: seq<Ins>, c: Conf, main: seq<Ins>, tail: seq<Ins>)
    requires code == main + tail && c.pc == 0
    ensures Here(code, c, main, |main|)
  {}
  lemma PureHead(op: Opc, n: nat) ensures AllPure(Head(op)) && AllPure(Straddle(n)) {}

  // ---- the theorem -----------------------------------------------------------------------------------

  lemma Accepted(op: Opc)
    requires Native(op)
    ensures 0 < Count(op.list) <= 15
  { FifteenBits(); CountBound(op.list, 15); CountPositive(op.list); hide Has; }

  /** From `c` the code stops, either at its end with the guest as the C helper leaves it, or at
      the call of the helper with the guest untouched; the latter exactly when a guard fails. */
  ghost predicate AsHelper(lay: Lay, code: seq<Ins>, e: Env, op: Opc, pc: Word, m: M, c: Conf, d: Conf)
    requires TagLengthsOk(e) && op.rn < 16
  {
    Leads(lay, code, c, d) && Sh4Mem.Next(lay, code, d).None?
    && if Guards(e, op.load, Start(op, m.r[op.rn]), Count(op.list))
       then d.pc == |code| && GuestIs(c.s, m, d.s, Helper(e, op, pc, m))
       else d.pc < |code| && code[d.pc] == Slow && GuestIs(c.s, m, d.s, m)
  }
  /** The inline code of every LDM/STM the emitter takes, for any base, list and memory. */
  lemma InlineCorrect(lay: Lay, e: Env, op: Opc, pc: Word, m: M, c: Conf) returns (d: Conf)
    requires Blocks.Valid(e, m) && Laid(lay, e, m.mem) && Native(op) && Shows(c.s, m) && c.pc == 0
    ensures TagLengthsOk(e) && AsHelper(lay, Inline(op, lay.table), e, op, pc, m, c, d)
  {
    hide Leads, Start, Passes, Main, Laid, Blocks.Valid, Shows, Count, Has, Guards, Helper, Fast, Here, Mapped, Sh4.Lo;
    Accepted(op); ValidTags(e, m);
    var j := Job(lay, Inline(op, lay.table), |Main(op, lay.table)|, e, op, m, c.s);
    d := InlineRuns(j, c);
    PassesIs(j); LoWord(c.s.r13);
    if Passes(j) { FastCorrect(e, op, pc, m); } else { ShowsGuest2(c.s, d.s, m); }
  }
  predicate TagLengthsOk(e: Env) { |e.etags| == 0x4_0000 && |e.itags| == 0x8000 }
  lemma PassesIs(j: Job)
    requires Native(j.op)
    ensures Passes(j) <==> TagLengthsOk(j.e) && Guards(j.e, j.op.load, Start(j.op, j.m.r[j.op.rn]), Count(j.op.list))
  { hide Guards, Start, Count, Has; }
}
