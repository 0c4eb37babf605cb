/** The condition test sh4g_cond_to_T, and what a compare followed by it decides. */
module Cond {
  import opened Words
  import opened Guest
  import opened Sh4
  import opened Alu
  import opened Shifts

  /** ARM condition codes over CPSR (section A3.2 of ARM DDI 0100). */
  predicate Passes(cond: nat, cpsr: Word)
    requires cond < 16
  {
    match cond
    case 0 => Z(cpsr)
    case 1 => !Z(cpsr)
    case 2 => C(cpsr)
    case 3 => !C(cpsr)
    case 4 => N(cpsr)
    case 5 => !N(cpsr)
    case 6 => V(cpsr)
    case 7 => !V(cpsr)
    case 8 => C(cpsr) && !Z(cpsr)
    case 9 => !C(cpsr) || Z(cpsr)
    case 10 => N(cpsr) == V(cpsr)
    case 11 => N(cpsr) != V(cpsr)
    case 12 => !Z(cpsr) && N(cpsr) == V(cpsr)
    case 13 => Z(cpsr) || N(cpsr) != V(cpsr)
    case 14 => true
    case _ => false
  }

  function FlagPos(cond: nat): nat
    requires cond < 8
  { if cond < 2 then 30 else if cond < 4 then 29 else if cond < 6 then 31 else 28 }

  function Compound(cond: nat): seq<Op>
    requires 8 <= cond < 14
  {
    if cond < 10 then [Bin(MOV, R1, R0), Un(SHLL2, R0), Bin(NOT, R1, R2), Un(SHLL, R2), Bin(AND, R2, R0)]
    else if cond < 12 then [Bin(MOV, R1, R0), Un(SHLL2, R0), Un(SHLL, R0), Bin(XOR, R1, R0)]
    else [Bin(MOV, R1, R0), Un(SHLL2, R0), Un(SHLL, R0), Bin(XOR, R1, R0), Bin(MOV, R1, R2), Un(SHLL, R2),
        Bin(OR, R2, R0)]
  }
  function ReadSign(cond: nat): Op { if cond in {8, 11, 13} then Un(SHLL, R0) else Test(CMPPZ, R0, R0) }

  /** sh4g_cond_to_T. */
  function CondCode(cond: nat): seq<Op>
    requires cond < 16
  {
    if cond == 14 then [SetT(true)]
    else if cond == 15 then [SetT(false)]
    else if cond < 8 then
      [Bin(MOV, R8, R0), MovI(0 - FlagPos(cond), R3), Bin(SHLD, R3, R0), AndI(1),
          CmpEqI(if cond % 2 == 0 then 1 else 0)]
    else [Bin(MOV, R8, R1)] + (Compound(cond) + [ReadSign(cond)])
  }

  lemma FlagBits(cpsr: Word)
    ensures BitOf(cpsr, 31) == N(cpsr) && BitOf(cpsr, 30) == Z(cpsr) && BitOf(cpsr, 29) == C(cpsr)
    ensures BitOf(cpsr, 28) == V(cpsr)
  {
    Pow2Is32();
    assert Pow2(31) == 2 * Pow2(30) && Pow2(30) == 2 * Pow2(29) && Pow2(29) == 2 * Pow2(28);
    FlagDivs(cpsr);
    hide Pow2;
  }
  lemma FlagDivs(x: Word)
    ensures (x / 0x8000_0000) % 2 == 1 <==> N(x)
    ensures (x / 0x4000_0000) % 2 == 1 <==> Z(x)
    ensures (x / 0x2000_0000) % 2 == 1 <==> C(x)
    ensures (x / 0x1000_0000) % 2 == 1 <==> V(x)
  { FlagDivZ(x); FlagDivC(x); FlagDivV(x); hide Z, C, V; }
  lemma FlagDivZ(x: Word) ensures (x / 0x4000_0000) % 2 == 1 <==> Z(x) {}
  lemma FlagDivC(x: Word) ensures (x / 0x2000_0000) % 2 == 1 <==> C(x) {}
  lemma FlagDivV(x: Word) ensures (x / 0x1000_0000) % 2 == 1 <==> V(x) {}

  lemma SingleRun(cond: nat, h: Host)
    requires cond < 8
    ensures var h' := Run(CondCode(cond), h); SameGuest(h, h') && h'.t == Passes(cond, h.r8)
  {
    SingleValue(cond, h.r8);
    SingleSymbolic(0 - FlagPos(cond), if cond % 2 == 0 then 1 else 0, h);
    hide Run, Step, ShldOf, SExt8, AndW, Passes, FlagPos;
  }
  lemma SingleValue(cond: nat, x: Word)
    requires cond < 8
    ensures (AndW(ShldOf(SExt8(0 - FlagPos(cond)), x), 1) == SExt8(if cond % 2 == 0 then 1 else 0)) == Passes(cond, x)
  {
    hide *;
    var pos := FlagPos(cond);
    FlagShift(cond, x);
    AndOne(Lsr(x, pos)); ZeroImm(); OneImm();
  }
  lemma FlagShift(cond: nat, x: Word)
    requires cond < 8
    ensures ShldOf(SExt8(0 - FlagPos(cond)), x) == Lsr(x, FlagPos(cond))
    ensures (Lsr(x, FlagPos(cond)) % 2 == 1) == (if cond % 2 == 0 then Passes(cond, x) else !Passes(cond, x))
  {
    hide ShldOf, ShadOf, SExt8, Lsr, Asr, SubW, Passes;
    FlagRead(cond, x);
    PosRange(cond);
    Right(x, FlagPos(cond));
  }
  lemma PosRange(cond: nat) requires cond < 8 ensures 1 <= FlagPos(cond) < 32 {}
  lemma FlagRead(cond: nat, x: Word)
    requires cond < 8
    ensures BitOf(x, FlagPos(cond)) == (if cond % 2 == 0 then Passes(cond, x) else !Passes(cond, x))
  { hide BitOf, N, Z, C, V; FlagBits(x); }
  lemma OneImm() ensures SExt8(1) == 1 {}
  lemma SingleSymbolic(i: int, want: int, h: Host)
    ensures var h' := Run([Bin(MOV, R8, R0), MovI(i, R3), Bin(SHLD, R3, R0), AndI(1), CmpEqI(want)], h);
      SameGuest(h, h') && h'.t == (AndW(ShldOf(SExt8(i), h.r8), 1) == SExt8(want))
  {
    hide Run, ShldOf, SExt8, AndW;
    Run5(Bin(MOV, R8, R0), MovI(i, R3), Bin(SHLD, R3, R0), AndI(1), CmpEqI(want), h);
  }

  /** Value whose sign bit each compound test reads. */
  function Positive(cond: nat, x: Word): Word {
    if cond < 10 then AndW(Shl2(x), Shl1(NotW(x)))
    else if cond < 12 then XorW(Shl1(Shl2(x)), x)
    else OrW(XorW(Shl1(Shl2(x)), x), Shl1(x))
  }
  lemma ShlSigns(x: Word)
    ensures Neg31(Shl2(x)) == C(x) && Neg31(Shl1(x)) == Z(x) && Neg31(Shl1(NotW(x))) == !Z(x)
    ensures Neg31(Shl1(Shl2(x))) == V(x)
    ensures Neg31(x) == N(x)
  {
    ShlDrop(x); ShlDrop2(NotW(x)); NotTop(x);
    hide Shl1, Shl2, NotW;
  }
  lemma NotTop(x: Word) ensures NotW(x) % 0x8000_0000 == 0x7FFF_FFFF - x % 0x8000_0000 {}
  lemma PositiveSign(cond: nat, x: Word)
    requires 8 <= cond < 14
    ensures Neg31(Positive(cond, x)) ==
      if cond < 10 then C(x) && !Z(x) else if cond < 12 then N(x) != V(x) else Z(x) || N(x) != V(x)
  {
    ShlSigns(x);
    SignOf(BAnd, Shl2(x), Shl1(NotW(x)));
    SignOf(BXor, Shl1(Shl2(x)), x);
    SignOf(BOr, XorW(Shl1(Shl2(x)), x), Shl1(x));
    hide BitwiseW, Shl1, Shl2, NotW, N, Z, C, V, Neg31;
  }

  lemma CompoundRun(cond: nat, h: Host)
    requires 8 <= cond < 14
    ensures var h' := Run(Compound(cond), h); SameGuest(h, h') && h'.r0 == Positive(cond, h.r1)
  {
    if cond < 10 { HiRun(h); } else if cond < 12 { LtRun(h); } else { LeRun(h); }
    hide Run, Step, AndW, XorW, OrW, Shl1, Shl2, NotW;
  }
  lemma HiRun(h: Host)
    ensures var h' := Run(Compound(8), h); SameGuest(h, h') && h'.r0 == Positive(8, h.r1)
  {
    hide Run, AndW, Shl1, Shl2, NotW, Neg31;
    Run5(Bin(MOV, R1, R0), Un(SHLL2, R0), Bin(NOT, R1, R2), Un(SHLL, R2), Bin(AND, R2, R0), h);
  }
  lemma LtRun(h: Host)
    ensures var h' := Run(Compound(10), h); SameGuest(h, h') && h'.r0 == Positive(10, h.r1)
  {
    hide Run, XorW, Shl1, Shl2, NotW, Neg31;
    Run4(Bin(MOV, R1, R0), Un(SHLL2, R0), Un(SHLL, R0), Bin(XOR, R1, R0), h);
  }
  lemma LeRun(h: Host)
    ensures var h' := Run(Compound(12), h); SameGuest(h, h') && h'.r0 == Positive(12, h.r1)
  {
    hide Run, XorW, OrW, Shl1, Shl2, NotW, Neg31;
    Run7(Bin(MOV, R1, R0), Un(SHLL2, R0), Un(SHLL, R0), Bin(XOR, R1, R0), Bin(MOV, R1, R2), Un(SHLL, R2),
        Bin(OR, R2, R0), h);
  }

  /** The emitted test leaves T equal to the condition and the guest untouched. */
  lemma CondCorrect(cond: nat, h: Host)
    requires cond < 16
    ensures var h' := Run(CondCode(cond), h);
      Straight(CondCode(cond)) && SameGuest(h, h') && h'.t == Passes(cond, h.r8)
  {
    if cond == 14 { Run1(SetT(true), h); }
    else if cond == 15 { Run1(SetT(false), h); }
    else if cond < 8 { SingleRun(cond, h); assert Straight(CondCode(cond)); hide Run, Step; }
    else { CompoundCorrect(cond, h); hide Run, Step, CondCode, Passes; }
  }
  lemma CompoundCorrect(cond: nat, h: Host)
    requires 8 <= cond < 14
    ensures var h' := Run(CondCode(cond), h);
      Straight(CondCode(cond)) && SameGuest(h, h') && h'.t == Passes(cond, h.r8)
  {
    var h1 := h.(r1 := h.r8);
    assert Step(Bin(MOV, R8, R1), h) == h1;
    assert Straight(CondCode(cond));
    PositiveSign(cond, h.r8);
    hide Run, Step, Compound, Positive, Neg31, N, Z, C, V, ReadSign;
    CompoundRun(cond, h1);
    SignRead(cond, Run(Compound(cond), h1));
    TailStore(Bin(MOV, R8, R1), Compound(cond) + [ReadSign(cond)], h);
    RunSplit(Compound(cond), [ReadSign(cond)], h1);
  }
  lemma SignRead(cond: nat, h: Host)
    ensures var h' := Run([ReadSign(cond)], h);
      SameGuest(h, h') && h'.t == (Neg31(h.r0) == (cond in {8, 11, 13}))
  { hide Shl1, Neg31; Run1(ReadSign(cond), h); }

  // ---- compare then branch ------------------------------------------------------

  /** The relation a condition decides after CMP a,b. */
  predicate Relation(cond: nat, a: Word, b: Word)
    requires cond in {0, 1, 2, 3, 8, 9, 10, 11, 12, 13}
  {
    match cond
    case 0 => a == b
    case 1 => a != b
    case 2 => a >= b
    case 3 => a < b
    case 8 => a > b
    case 9 => a <= b
    case 10 => Signed(a) >= Signed(b)
    case 11 => Signed(a) < Signed(b)
    case 12 => Signed(a) > Signed(b)
    case _ => Signed(a) <= Signed(b)
  }

  /** CMP R1,R2 with every flag live, then the condition test, sets T to the true
      unsigned or signed comparison of the operands. */
  lemma CompareDecides(cond: nat, h: Host)
    requires cond in {0, 1, 2, 3, 8, 9, 10, 11, 12, 13}
    ensures var all := Live(true, true, true, true);
      Run(AddSubCode(true, 0, false, all) + CondCode(cond), h).t == Relation(cond, h.r1, h.r2)
  {
    var all := Live(true, true, true, true);
    var cmp := AddSubCode(true, 0, false, all);
    var s := SumOf(true, h.r1, h.r2);
    AddSubCorrect(true, 0, false, all, h);
    var h1 := Run(cmp, h);
    assert h1.r8 == View(h1).cpsr;
    CondCorrect(cond, h1);
    RunSplit(cmp, CondCode(cond), h);
    PackFields(Low(h.r8), Neg31(s.res), s.res == 0, s.c, s.v);
    SumFacts(h.r1, h.r2);
    FlagsDecide(cond, h.r1, h.r2, h1.r8);
    hide Run, Step, CondCode, AddSubCode, Low, N, Z, C, V, Pack, SumOf;
  }
  lemma FlagsDecide(cond: nat, a: Word, b: Word, cpsr: Word)
    requires cond in {0, 1, 2, 3, 8, 9, 10, 11, 12, 13}
    requires N(cpsr) == Neg31(SubW(a, b)) && Z(cpsr) == (SubW(a, b) == 0) && C(cpsr) == (a >= b)
    requires V(cpsr) == (Neg31(b) != Neg31(a) && Neg31(SubW(a, b)) != Neg31(a))
    ensures Passes(cond, cpsr) == Relation(cond, a, b)
  { hide N, Z, C, V; }
}
