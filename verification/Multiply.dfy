/** Native MUL/MLA and UMULL/UMLAL/SMULL/SMLAL against the C helpers. */
module Multiply {
  import opened Words
  import opened Guest
  import opened Sh4
  import opened Alu
  import opened Shifts
  import opened ArmDp
  import opened Thumb

  function MulFront(rm: nat, rs: nat): seq<Op> {
    [LoadGreg(rm, R1), LoadGreg(rs, R2), Mult(MULL, R1, R2), StsMacl(R1)]
  }
  function MulCode(rd: nat, rn: nat, rs: nat, rm: nat, acc: bool, s: bool, live: Live): seq<Op> {
    MulFront(rm, rs) + ((if acc then [LoadGreg(rn, R2), Bin(ADD, R2, R1)] else [])
    + TailCode(true, rd, R4, R4, if s then FlagsRound(NzOnly(live)) else None0))
  }

  /** sh4g_arm_multiply_native; an r15 operand falls back to C. */
  function MulNative(opcode: Word, live: Live): Option<seq<Op>> {
    var rd, rn, rs, rm := (opcode / 0x1_0000) % 16, (opcode / 0x1000) % 16, (opcode / 256) % 16, opcode % 16;
    var acc, s := (opcode / 0x20_0000) % 2 == 1, (opcode / 0x10_0000) % 2 == 1;
    if rd == 15 || rm == 15 || rs == 15 || (acc && rn == 15) then None
    else Some(MulCode(rd, rn, rs, rm, acc, s, live))
  }

  lemma MulFrontRun(rm: nat, rs: nat, h: Host)
    requires rm < 16 && rs < 16
    ensures var h' := Run(MulFront(rm, rs), h);
      Straight(MulFront(rm, rs)) && SameGuest(h, h') && h'.r1 == MulW(View(h).r[rm], View(h).r[rs])
  {
    LoadPair(rm, rs, h);
    hide Run, LoadGreg, View;
    Run4(LoadGreg(rm, R1), LoadGreg(rs, R2), Mult(MULL, R1, R2), StsMacl(R1), h);
  }
  lemma AccRun(acc: bool, rn: nat, h: Host)
    requires rn < 16
    ensures var c: seq<Op> := if acc then [LoadGreg(rn, R2), Bin(ADD, R2, R1)] else []; var h' := Run(c, h);
      Straight(c) && SameGuest(h, h') && h'.r1 == (if acc then AddW(h.r1, View(h).r[rn]) else h.r1)
  {
    if acc {
      LoadGregStep(rn, R2, h);
      hide Run, LoadGreg, View, AddW;
      Run2(LoadGreg(rn, R2), Bin(ADD, R2, R1), h);
    }
  }

  lemma MulCorrect(opcode: Word, live: Live, h: Host)
    requires MulNative(opcode, live).Some?
    ensures var o := Exec(MulNative(opcode, live).value, h);
      o.Some? && Agrees(live, View(h), View(o.value), ArmMultiply(opcode, View(h)))
  {
    var rd, rn, rs, rm := (opcode / 0x1_0000) % 16, (opcode / 0x1000) % 16, (opcode / 256) % 16, opcode % 16;
    var acc, s := (opcode / 0x20_0000) % 2 == 1, (opcode / 0x10_0000) % 2 == 1;
    var add: seq<Op> := if acc then [LoadGreg(rn, R2), Bin(ADD, R2, R1)] else [];
    var tail := TailCode(true, rd, R4, R4, if s then FlagsRound(NzOnly(live)) else None0);
    hide Exec, Run, Step, MulFront, TailCode, Agrees, View, SetNz, MulW, AddW, Straight, LoadGreg;
    MulFrontRun(rm, rs, h);
    var h1 := Run(MulFront(rm, rs), h);
    ViewOf(h, h1);
    AccRun(acc, rn, h1);
    var h2 := Run(add, h1);
    ViewOf(h1, h2);
    if s { NzCommit(live, true, rd, h2); } else { PlainStore(live, rd, h2); }
    ThreeParts(MulFront(rm, rs), add, tail, h);
  }
  lemma PlainStore(live: Live, rd: nat, h: Host)
    requires rd < 16
    ensures var t := TailCode(true, rd, R4, R4, None0);
      Straight(t) && Agrees(live, View(h), View(Run(t, h)), View(h).(r := View(h).r[rd := h.r1]))
  {
    TailRun(true, rd, R4, R4, None0, h);
    CommitNothing(live, View(h), true, rd, h.r1, h.r4 == 1, h.r4 == 1);
    hide Run, Agrees, Commit;
  }

  // ---- long forms -----------------------------------------------------------

  function LongFront(rm: nat, rs: nat, signed: bool): seq<Op> {
    [LoadGreg(rm, R1), LoadGreg(rs, R2), Mult(if signed then DMULS else DMULU, R1, R2), StsMacl(R1), StsMach(R2)]
  }
  function LongAcc(lo: nat, hi: nat): seq<Op> {
    [LoadGreg(lo, R3), LoadGreg(hi, R4), SetT(false), Bin(ADDC, R3, R1), Bin(ADDC, R4, R2)]
  }
  function Nz64A(): seq<Op> {
    [Bin(MOV, R8, R5), Un(SHLL2, R5), Un(SHLR2, R5), Bin(MOV, R2, R6), MovI(1, R0), Un(ROTR, R0),
     Bin(AND, R0, R6), Bin(OR, R6, R5)]
  }
  function Nz64B(): seq<Op> {
    [Bin(MOV, R1, R6), Bin(OR, R2, R6), Test(TST, R6, R6), Un(MOVT, R6), MovI(30, R0), Bin(SHLD, R0, R6),
     Bin(OR, R6, R5), Bin(MOV, R5, R8)]
  }
  function LongTail(lo: nat, hi: nat, flags: bool): seq<Op> {
    [StoreGreg(R1, lo), StoreGreg(R2, hi)] + (if flags then Nz64A() + Nz64B() else [])
  }
  function LongCode(hi: nat, lo: nat, rs: nat, rm: nat, signed: bool, acc: bool, flags: bool): seq<Op> {
    LongFront(rm, rs, signed) + ((if acc then LongAcc(lo, hi) else []) + LongTail(lo, hi, flags))
  }

  /** sh4g_arm_multiply_long_native. */
  function MulLongNative(opcode: Word, live: Live): Option<seq<Op>> {
    var hi, lo, rs, rm := (opcode / 0x1_0000) % 16, (opcode / 0x1000) % 16, (opcode / 256) % 16, opcode % 16;
    var signed, acc, s := (opcode / 0x40_0000) % 2 == 1, (opcode / 0x20_0000) % 2 == 1, (opcode / 0x10_0000) % 2 == 1;
    if hi == 15 || lo == 15 || rm == 15 || rs == 15 || hi == lo then None
    else Some(LongCode(hi, lo, rs, rm, signed, acc, s && (live.n || live.z)))
  }

  lemma LongFrontRun(rm: nat, rs: nat, signed: bool, h: Host)
    requires rm < 16 && rs < 16
    ensures var h' := Run(LongFront(rm, rs, signed), h);
      var x: int, y: int := View(h).r[rm], View(h).r[rs];
      var p := if signed then Signed(x) * Signed(y) else x * y;
      Straight(LongFront(rm, rs, signed)) && SameGuest(h, h') && h'.r1 == Lo(p) && h'.r2 == Hi(p)
  {
    LoadPair(rm, rs, h);
    hide Run, LoadGreg, View, Lo, Hi;
    Run5(LoadGreg(rm, R1), LoadGreg(rs, R2), Mult(if signed then DMULS else DMULU, R1, R2), StsMacl(R1), StsMach(R2),
        h);
  }

  lemma LongAccRun(lo: nat, hi: nat, h: Host)
    requires lo < 16 && hi < 16
    ensures var h' := Run(LongAcc(lo, hi), h);
      var l, u := View(h).r[lo], View(h).r[hi];
      var c := AddW(AddW(h.r1, l), 0) < AddW(h.r1, l) || AddW(h.r1, l) < h.r1;
      Straight(LongAcc(lo, hi)) && SameGuest(h, h') && h'.r1 == AddW(AddW(h.r1, l), 0)
      && h'.r2 == AddW(AddW(h.r2, u), Bit(c))
  {
    LoadGregStep(lo, R3, h);
    var h1 := h.(r3 := View(h).r[lo]);
    assert View(h1) == View(h);
    LoadGregStep(hi, R4, h1);
    assert Bit(false) == 0;
    hide Run, LoadGreg, View, AddW, Bit;
    Run5(LoadGreg(lo, R3), LoadGreg(hi, R4), SetT(false), Bin(ADDC, R3, R1), Bin(ADDC, R4, R2), h);
  }

  /** The carry chain is a 64-bit addition. */
  lemma Add64(p: int, l: Word, u: Word)
    ensures var res: int := (p + (u * 0x1_0000_0000 + l)) % 0x1_0000_0000_0000_0000;
      var lo := AddW(AddW(Lo(p), l), 0);
      var c := AddW(AddW(Lo(p), l), 0) < AddW(Lo(p), l) || AddW(Lo(p), l) < Lo(p);
      res % 0x1_0000_0000 == lo && res / 0x1_0000_0000 == AddW(AddW(Hi(p), u), Bit(c))
  {
    var q := p / 0x1_0000_0000;
    var k := q / 0x1_0000_0000;
    var lo := AddW(AddW(Lo(p), l), 0);
    var c := AddW(AddW(Lo(p), l), 0) < AddW(Lo(p), l) || AddW(Lo(p), l) < Lo(p);
    var hi: int := AddW(AddW(Hi(p), u), Bit(c));
    assert p == 0x1_0000_0000 * (0x1_0000_0000 * k + Hi(p)) + Lo(p);
    var t := (Hi(p) + u + Bit(c) - hi) / 0x1_0000_0000;
    assert 0 <= t && Hi(p) + u + Bit(c) == hi + 0x1_0000_0000 * t;
    var whole: int := p + (u * 0x1_0000_0000 + l);
    assert whole == (k + t) * 0x1_0000_0000_0000_0000 + (hi * 0x1_0000_0000 + lo);
    ModUnique(whole, 0x1_0000_0000_0000_0000, k + t, hi * 0x1_0000_0000 + lo);
    ModUnique(hi * 0x1_0000_0000 + lo, 0x1_0000_0000, hi, lo);
  }
  lemma Keep64(p: int)
    ensures var res: int := p % 0x1_0000_0000_0000_0000;
      res % 0x1_0000_0000 == Lo(p) && res / 0x1_0000_0000 == Hi(p)
  { Add64(p, 0, 0); }

  // ---- N and Z over 64 bits ---------------------------------------------------

  /** The two mask merges of sh4g_set_nz64. */
  function Nz64Low(cpsr: Word, rh: Word): Word { OrW(Shl2(cpsr) / 4, AndW(rh, 0x8000_0000)) }
  function Nz64Of(cpsr: Word, rl: Word, rh: Word): Word {
    OrW(Nz64Low(cpsr, rh), ShldOf(SExt8(30), Bit(AndW(OrW(rl, rh), OrW(rl, rh)) == 0)))
  }

  lemma Nz64Pack(cpsr: Word, rl: Word, rh: Word)
    ensures Nz64Of(cpsr, rl, rh) == NewCpsr(cpsr, ToZ, Neg31(rh), rl == 0 && rh == 0, false, false)
  {
    var z := rl == 0 && rh == 0;
    OrZero(rl, rh); AndSelf(OrW(rl, rh));
    Left(Bit(z), 30);
    LslBit(z);
    Nz64LowIs(cpsr, rh);
    NewCpsrZ(cpsr, Neg31(rh), z);
    OrHigh(cpsr % 0x4000_0000, Neg31(rh), z);
    hide NewCpsr, Flag, OrW, AndW, Lsl, ShldOf, SExt8, Shl2, Nz64Low, Low, V, C, Bitwise, Neg31;
  }
  lemma NewCpsrZ(cpsr: Word, n: bool, z: bool)
    ensures NewCpsr(cpsr, ToZ, n, z, false, false) == cpsr % 0x4000_0000 + Flag(n, 0x8000_0000) + Flag(z, 0x4000_0000)
  { Tops(cpsr); hide Low, V, C, N, Z; }
  lemma LslBit(z: bool)
    ensures Lsl(Bit(z), 30) == Flag(z, 0x4000_0000)
  { Pow2Is32(); assert Pow2(31) == 2 * Pow2(30); }
  lemma Nz64LowIs(cpsr: Word, rh: Word)
    ensures Nz64Low(cpsr, rh) == cpsr % 0x4000_0000 + Flag(Neg31(rh), 0x8000_0000)
  {
    hide Bitwise, Shl2, Pow2, AndW;
    ShlDrop2(cpsr);
    AndTop(rh);
    var y := cpsr % 0x4000_0000;
    assert (4 * y) / 4 == y;
    Pow2Is32();
    BitTest(y, 31); DivSmall(y, 0x8000_0000);
    AndZero(y);
    OrAdd(y, Flag(Neg31(rh), 0x8000_0000));
  }
  lemma DivSmall(y: nat, m: nat) requires y < m ensures y / m == 0 {}
  lemma AndTop(x: Word)
    ensures AndW(x, 0x8000_0000) == Flag(Neg31(x), 0x8000_0000)
  {
    hide Bitwise, Pow2;
    Pow2Is32();
    BitTest(x, 31);
    HighBit(x);
    SignOf(BAnd, x, 0x8000_0000);
    AndLe(x, 0x8000_0000);
  }
  lemma HighBit(x: Word) ensures (x / 0x8000_0000) % 2 == if Neg31(x) then 1 else 0 {}
  lemma {:induction false} AndLe(a: nat, b: nat)
    ensures Bitwise(BAnd, a, b) <= b
    decreases a + b
  { if a + b > 0 { AndLe(a / 2, b / 2); } }
  lemma OrHigh(y: Word, n: bool, z: bool)
    requires y < 0x4000_0000
    ensures OrW(y + Flag(n, 0x8000_0000), Flag(z, 0x4000_0000)) == y + Flag(n, 0x8000_0000) + Flag(z, 0x4000_0000)
  {
    var a := y + Flag(n, 0x8000_0000);
    Pow2Is32(); assert Pow2(31) == 2 * Pow2(30);
    BitTest(a, 30); AndZero(a);
    assert a / 0x4000_0000 == (if n then 2 else 0);
    OrAdd(a, Flag(z, 0x4000_0000));
    hide Bitwise, Pow2;
  }

  lemma Nz64Run(h: Host)
    ensures var c := Nz64A() + Nz64B(); var h' := Run(c, h);
      Straight(c) && h'.r11 == h.r11 && h'.file == h.file && h'.r8 == Nz64Of(h.r8, h.r1, h.r2)
  {
    Nz64ARun(h); Nz64BRun(Run(Nz64A(), h));
    RunSplit(Nz64A(), Nz64B(), h);
    hide Run, Step, ShldOf, AndW, OrW, Shl2, SExt8;
  }
  lemma Nz64ARun(h: Host)
    ensures var h' := Run(Nz64A(), h);
      SameGuest(h, h') && h'.r1 == h.r1 && h'.r2 == h.r2 && h'.r5 == Nz64Low(h.r8, h.r2)
  {
    var a, b := [Bin(MOV, R8, R5), Un(SHLL2, R5), Un(SHLR2, R5), Bin(MOV, R2, R6)],
                [MovI(1, R0), Un(ROTR, R0), Bin(AND, R0, R6), Bin(OR, R6, R5)];
    assert Nz64A() == a + b;
    ClearNz(h);
    var h1 := h.(r5 := Shl2(h.r8) / 4, r6 := h.r2);
    MergeN(h1);
    RunSplit(a, b, h);
    hide Run, Step, AndW, OrW, Shl2;
  }
  lemma ClearNz(h: Host)
    ensures Run([Bin(MOV, R8, R5), Un(SHLL2, R5), Un(SHLR2, R5), Bin(MOV, R2, R6)], h)
      == h.(r5 := Shl2(h.r8) / 4, r6 := h.r2)
  { hide Run, Shl2; Run4(Bin(MOV, R8, R5), Un(SHLL2, R5), Un(SHLR2, R5), Bin(MOV, R2, R6), h); }
  lemma MergeN(h: Host)
    ensures var h' := Run([MovI(1, R0), Un(ROTR, R0), Bin(AND, R0, R6), Bin(OR, R6, R5)], h);
      SameGuest(h, h') && h'.r1 == h.r1 && h'.r2 == h.r2 && h'.r5 == OrW(h.r5, AndW(h.r6, 0x8000_0000))
  {
    hide Run, AndW, OrW, SExt8, RotcrOf;
    ZeroImm(); TopOne();
    Run4(MovI(1, R0), Un(ROTR, R0), Bin(AND, R0, R6), Bin(OR, R6, R5), h);
  }
  lemma TopOne() ensures RotcrOf(true, 1) == 0x8000_0000 && SExt8(1) % 2 == 1 && SExt8(1) == 1 {}
  lemma Nz64BRun(h: Host)
    ensures var h' := Run(Nz64B(), h);
      h'.r11 == h.r11 && h'.file == h.file
      && h'.r8 == OrW(h.r5, ShldOf(SExt8(30), Bit(AndW(OrW(h.r1, h.r2), OrW(h.r1, h.r2)) == 0)))
  {
    hide Run, AndW, OrW, ShldOf, SExt8, Bit;
    Run8(Bin(MOV, R1, R6), Bin(OR, R2, R6), Test(TST, R6, R6), Un(MOVT, R6), MovI(30, R0), Bin(SHLD, R0, R6),
         Bin(OR, R6, R5), Bin(MOV, R5, R8), h);
  }

  lemma StoreBoth(lo: nat, hi: nat, h: Host)
    requires lo < 16 && hi < 16
    ensures var c := [StoreGreg(R1, lo), StoreGreg(R2, hi)]; var h' := Run(c, h);
      Straight(c) && View(h') == View(h).(r := View(h).r[lo := h.r1][hi := h.r2]) && h'.r1 == h.r1 && h'.r2 == h.r2
      && h'.r8 == h.r8
  {
    var h1 := Step(StoreGreg(R1, lo), h);
    StoreGregStep(R1, lo, h); StoreGregStep(R2, hi, h1);
    KeepsScratch(h1, h); KeepsScratch(Step(StoreGreg(R2, hi), h1), h1);
    assert !IsBranch(StoreGreg(R1, lo)) && !IsBranch(StoreGreg(R2, hi));
    hide Run, Step, StoreGreg, View;
    Run2(StoreGreg(R1, lo), StoreGreg(R2, hi), h);
  }

  function LongWant(g: Guest, lo: nat, hi: nat, rl: Word, rh: Word, s: bool): Guest
    requires lo < 16 && hi < 16
  {
    var g1 := g.(r := g.r[lo := rl][hi := rh]);
    if s then g1.(cpsr := Pack(Low(g.cpsr), Neg31(rh), rl == 0 && rh == 0, C(g.cpsr), V(g.cpsr))) else g1
  }

  lemma LongTailRun(lo: nat, hi: nat, s: bool, live: Live, h: Host)
    requires lo < 16 && hi < 16
    ensures var c := LongTail(lo, hi, s && (live.n || live.z));
      Straight(c) && Agrees(live, View(h), View(Run(c, h)), LongWant(View(h), lo, hi, h.r1, h.r2, s))
  {
    var store := [StoreGreg(R1, lo), StoreGreg(R2, hi)];
    var h1 := Run(store, h);
    StoreBoth(lo, hi, h);
    PackFields(Low(h.r8), Neg31(h.r2), h.r1 == 0 && h.r2 == 0, C(h.r8), V(h.r8));
    if s && (live.n || live.z) {
      Nz64Run(h1);
      Nz64Pack(h.r8, h.r1, h.r2);
      NewCpsrFields(h.r8, ToZ, Neg31(h.r2), h.r1 == 0 && h.r2 == 0, false, false);
      hide Run, Step, Nz64A, Nz64B, Nz64Of, NewCpsr, Pack, Low, N, Z, C, V, Neg31, StoreGreg;
      RunSplit(store, Nz64A() + Nz64B(), h);
    } else {
      hide Run, Step, Nz64A, Nz64B, Nz64Of, Pack, Low, N, Z, C, V, Neg31, StoreGreg;
      RunSplit(store, [], h); RunNil(h1);
    }
  }

  /** What the C helper computes, by halves. */
  lemma LongOracle(opcode: Word, g: Guest, p: int, acc: int)
    requires var x: int, y: int := g.r[opcode % 16], g.r[(opcode / 256) % 16];
      p == if (opcode / 0x40_0000) % 2 == 1 then Signed(x) * Signed(y) else x * y
    requires var u: int, l: int := g.r[(opcode / 0x1_0000) % 16], g.r[(opcode / 0x1000) % 16];
      acc == if (opcode / 0x20_0000) % 2 == 1 then u * 0x1_0000_0000 + l else 0
    ensures var res: int := (p + acc) % 0x1_0000_0000_0000_0000;
      ArmMultiplyLong(opcode, g) == LongWant(g, (opcode / 0x1000) % 16, (opcode / 0x1_0000) % 16,
        res % 0x1_0000_0000, res / 0x1_0000_0000, (opcode / 0x10_0000) % 2 == 1)
  {
    var res: int := (p + acc) % 0x1_0000_0000_0000_0000;
    assert res == 0 <==> res % 0x1_0000_0000 == 0 && res / 0x1_0000_0000 == 0;
    hide Pack, Low, C, V, Signed;
  }

  lemma LongExec(hi: nat, lo: nat, rs: nat, rm: nat, signed: bool, acc: bool, s: bool, live: Live, h: Host)
    requires hi < 16 && lo < 16 && rs < 16 && rm < 16
    ensures var g := View(h);
      var x: int, y: int, u: int, l: int := g.r[rm], g.r[rs], g.r[hi], g.r[lo];
      var res: int := ((if signed then Signed(x) * Signed(y) else x * y) + if acc then u * 0x1_0000_0000 + l else 0) % 0x1_0000_0000_0000_0000;
      var o := Exec(LongCode(hi, lo, rs, rm, signed, acc, s && (live.n || live.z)), h);
      o.Some? && Agrees(live, g, View(o.value), LongWant(g, lo, hi, res % 0x1_0000_0000, res / 0x1_0000_0000, s))
  {
    hide Exec, Run, Step, LongFront, LongAcc, LongTail, Agrees, View, LongWant, Signed, Straight, Lo, Hi;
    var g := View(h);
    var x: int, y: int := g.r[rm], g.r[rs];
    var p := if signed then Signed(x) * Signed(y) else x * y;
    LongFrontRun(rm, rs, signed, h);
    var h1 := Run(LongFront(rm, rs, signed), h);
    ViewOf(h, h1);
    var mid := if acc then LongAcc(lo, hi) else [];
    var h2 := Run(mid, h1);
    AccStage(acc, lo, hi, p, h1);
    ViewOf(h1, h2);
    LongTailRun(lo, hi, s, live, h2);
    ThreeParts(LongFront(rm, rs, signed), mid, LongTail(lo, hi, s && (live.n || live.z)), h);
  }

  lemma MulLongCorrect(opcode: Word, live: Live, h: Host)
    requires MulLongNative(opcode, live).Some?
    ensures var o := Exec(MulLongNative(opcode, live).value, h);
      o.Some? && Agrees(live, View(h), View(o.value), ArmMultiplyLong(opcode, View(h)))
  {
    hide Exec, Agrees, View, LongWant, ArmMultiplyLong, Signed, LongCode;
    var hi, lo, rs, rm := (opcode / 0x1_0000) % 16, (opcode / 0x1000) % 16, (opcode / 256) % 16, opcode % 16;
    var signed, acc, s := (opcode / 0x40_0000) % 2 == 1, (opcode / 0x20_0000) % 2 == 1, (opcode / 0x10_0000) % 2 == 1;
    var g := View(h);
    var x: int, y: int, u: int, l: int := g.r[rm], g.r[rs], g.r[hi], g.r[lo];
    LongOracle(opcode, g, if signed then Signed(x) * Signed(y) else x * y, if acc then u * 0x1_0000_0000 + l else 0);
    LongExec(hi, lo, rs, rm, signed, acc, s, live, h);
  }
  lemma AccStage(acc: bool, lo: nat, hi: nat, p: int, h: Host)
    requires lo < 16 && hi < 16 && h.r1 == Lo(p) && h.r2 == Hi(p)
    ensures var mid := if acc then LongAcc(lo, hi) else []; var h' := Run(mid, h);
      var u: int, l: int := View(h).r[hi], View(h).r[lo];
      var res: int := (p + (if acc then u * 0x1_0000_0000 + l else 0)) % 0x1_0000_0000_0000_0000;
      Straight(mid) && SameGuest(h, h') && h'.r1 == res % 0x1_0000_0000 && h'.r2 == res / 0x1_0000_0000
  {
    hide Run, Step, LongAcc, View, AddW, Lo, Hi;
    if acc { LongAccRun(lo, hi, h); Add64(p, View(h).r[lo], View(h).r[hi]); }
    else { RunNil(h); Keep64(p); }
  }
}
