/** SHLD/SHAD recipes for every ARM and Thumb shift, immediate or by register. */
module Shifts {
  import opened Words
  import opened Guest
  import opened Sh4
  import opened Alu

  // ---- what SHLD and SHAD compute for each signed count ----------------------

  lemma Left(x: Word, k: nat)
    requires k < 32
    ensures ShldOf(SExt8(k), x) == Lsl(x, k) && ShldOf(k, x) == Lsl(x, k)
  {
    hide Lsl, Lsr;
    assert SExt8(k) == k;
  }
  lemma Right(x: Word, k: nat)
    requires 1 <= k < 32
    ensures ShldOf(SExt8(0 - k), x) == Lsr(x, k) && ShldOf(SubW(0, k), x) == Lsr(x, k)
    ensures ShadOf(SExt8(0 - k), x) == Asr(x, k) && ShadOf(SubW(0, k), x) == Asr(x, k)
  {
    hide Lsl, Lsr, Asr;
    assert SubW(0, k) % 32 == 32 - k && SExt8(0 - k) == SubW(0, k);
  }
  lemma Zero(x: Word)
    ensures ShldOf(0, x) == x && Lsr(x, 0) == x
  { assert Pow2(0) == 1; assert x * 1 == x; }
  lemma SignFill(x: Word)
    ensures Asr(x, 31) == (if Neg31(x) then 0xFFFF_FFFF else 0)
    ensures ShadOf(SExt8(-32), x) == Asr(x, 31)
  { Pow2Is32(); hide Pow2; }
  lemma TopBit(x: Word)
    ensures BitOf(x, 31) == Neg31(x)
  { Pow2Is32(); hide Pow2; }

  /** SHLD by -(k-1), or by 0 when k is 1, moves bit k-1 to bit 0. */
  lemma CarryCount(x: Word, k: nat)
    requires 1 <= k <= 32
    ensures ShldOf(SExt8(0 - (k - 1)), x) == Lsr(x, k - 1)
    ensures ShldOf(SubW(1, k), x) == Lsr(x, k - 1)
  {
    if k == 1 { Zero(x); } else { Right(x, k - 1); assert SubW(1, k) == SubW(0, k - 1); }
  }

  // ---- ARM immediate shift of the second operand ----------------------------

  function ShiftOps(kind: nat, amount: nat): seq<Op>
    requires kind < 4 && amount < 32
  {
    match kind
    case 0 => [MovI(amount, R0), Bin(SHLD, R0, R2)]
    case 1 => if amount == 0 then [MovI(0, R2)] else [MovI(0 - amount, R0), Bin(SHLD, R0, R2)]
    case 2 => [MovI(if amount == 0 then -32 else 0 - amount, R0), Bin(SHAD, R0, R2)]
    case _ => [Bin(MOV, R2, R3), MovI(0 - amount, R0), Bin(SHLD, R0, R2), MovI(32 - amount, R0),
               Bin(SHLD, R0, R3), Bin(OR, R3, R2)]
  }

  predicate Accepted(kind: nat, amount: nat) {
    kind < 4 && amount < 32 && (kind == 0 || kind == 3 ==> amount != 0)
  }

  predicate OnlyR023(h: Host, h': Host) {
    h' == h.(r0 := h'.r0, r2 := h'.r2, r3 := h'.r3, t := h'.t)
  }

  lemma ShiftOpsRun(kind: nat, amount: nat, c: bool, h: Host)
    requires Accepted(kind, amount)
    ensures var h' := Run(ShiftOps(kind, amount), h);
      OnlyR023(h, h') && h'.r2 == Shift(kind, amount, h.r2, c).value
  {
    hide Run, Lsl, Lsr, Asr, OrW, Shift, Step, ShiftOps;
    match kind
    case 0 => LslRun(amount, c, h);
    case 1 => LsrRun(amount, c, h);
    case 2 => AsrRun(amount, c, h);
    case _ => RorRun(amount, c, h);
  }
  lemma LslRun(k: nat, c: bool, h: Host)
    requires 1 <= k < 32
    ensures var h' := Run(ShiftOps(0, k), h);
      OnlyR023(h, h') && h'.r2 == Shift(0, k, h.r2, c).value
  {
    Left(h.r2, k);
    hide Run, Lsl, ShldOf, SExt8, BitOf;
    Run2(MovI(k, R0), Bin(SHLD, R0, R2), h);
  }
  lemma LsrRun(k: nat, c: bool, h: Host)
    requires k < 32
    ensures var h' := Run(ShiftOps(1, k), h);
      OnlyR023(h, h') && h'.r2 == Shift(1, k, h.r2, c).value
  {
    if k == 0 { ZeroImm(); hide Run, SExt8, BitOf; Run1(MovI(0, R2), h); }
    else {
      Right(h.r2, k);
      hide Run, Lsr, Asr, ShldOf, ShadOf, SExt8, BitOf;
      Run2(MovI(0 - k, R0), Bin(SHLD, R0, R2), h);
    }
  }
  lemma AsrRun(k: nat, c: bool, h: Host)
    requires k < 32
    ensures var h' := Run(ShiftOps(2, k), h);
      OnlyR023(h, h') && h'.r2 == Shift(2, k, h.r2, c).value
  {
    if k == 0 { SignFill(h.r2); } else { Right(h.r2, k); }
    hide Run, Lsr, Asr, ShldOf, ShadOf, SExt8, BitOf;
    var i := if k == 0 then -32 else 0 - k;
    Run2(MovI(i, R0), Bin(SHAD, R0, R2), h);
  }
  lemma RorRun(k: nat, c: bool, h: Host)
    requires 1 <= k < 32
    ensures var h' := Run(ShiftOps(3, k), h);
      OnlyR023(h, h') && h'.r2 == Shift(3, k, h.r2, c).value
  {
    Right(h.r2, k); Left(h.r2, 32 - k);
    RorSymbolic(0 - k, 32 - k, h);
    RorValue(k, h.r2, c);
    hide Run, Step, Lsl, Lsr, Asr, ShldOf, ShadOf, SExt8, BitOf, OrW, Shift;
  }
  lemma RorValue(k: nat, x: Word, c: bool)
    requires 1 <= k < 32
    ensures Shift(3, k, x, c).value == OrW(Lsr(x, k), Lsl(x, 32 - k))
  { hide Lsl, Lsr, OrW, BitOf; }
  lemma RorSymbolic(i: int, j: int, h: Host)
    ensures var h' := Run([Bin(MOV, R2, R3), MovI(i, R0), Bin(SHLD, R0, R2), MovI(j, R0), Bin(SHLD, R0, R3), Bin(OR, R3, R2)], h);
      OnlyR023(h, h') && h'.r2 == OrW(ShldOf(SExt8(i), h.r2), ShldOf(SExt8(j), h.r2))
  {
    hide Run, ShldOf, SExt8, OrW;
    Run6(Bin(MOV, R2, R3), MovI(i, R0), Bin(SHLD, R0, R2), MovI(j, R0), Bin(SHLD, R0, R3), Bin(OR, R3, R2), h);
  }
  lemma ZeroImm() ensures SExt8(0) == 0 && SExt8(1) == 1 {}

  // ---- shifter carry of an immediate shift, for logical ops with live C ------

  function CarryBitOps(kind: nat, amount: nat): seq<Op>
    requires kind < 3 && amount < 32
  {
    if amount == 0 then [Bin(MOV, R6, R0), Un(SHLL, R0), Un(MOVT, R0), Bin(MOV, R0, R6)]
    else [Bin(MOV, R6, R3), MovI(if kind == 0 then 0 - (32 - amount) else 0 - (amount - 1), R0),
          Bin(SHLD, R0, R3), Bin(MOV, R3, R0), AndI(1), Bin(MOV, R0, R6)]
  }

  lemma CarryBitRun(kind: nat, amount: nat, c: bool, h: Host)
    requires kind < 3 && Accepted(kind, amount)
    ensures var h' := Run(CarryBitOps(kind, amount), h);
      SameGuest(h, h') && h'.r1 == h.r1 && h'.r2 == h.r2 && h'.r6 == Bit(Shift(kind, amount, h.r6, c).carry)
  {
    if amount == 0 {
      TopBit(h.r6);
      hide Run, BitOf, Shl1, Neg31, Asr;
      Run4(Bin(MOV, R6, R0), Un(SHLL, R0), Un(MOVT, R0), Bin(MOV, R0, R6), h);
    } else {
      CarryBitShift(kind, amount, c, h);
    }
  }
  lemma CarryBitShift(kind: nat, amount: nat, c: bool, h: Host)
    requires kind < 3 && 1 <= amount < 32
    ensures var h' := Run(CarryBitOps(kind, amount), h);
      SameGuest(h, h') && h'.r1 == h.r1 && h'.r2 == h.r2 && h'.r6 == Bit(Shift(kind, amount, h.r6, c).carry)
  {
    var down := if kind == 0 then 32 - amount else amount - 1;
    CarryCount(h.r6, down + 1);
    AndOne(Lsr(h.r6, down));
    CarryBitSymbolic(0 - down, h);
    hide Run, Step, Lsl, Lsr, Asr, ShldOf, SExt8, AndW;
    assert Shift(kind, amount, h.r6, c).carry == BitOf(h.r6, down);
  }
  lemma CarryBitSymbolic(i: int, h: Host)
    ensures var h' := Run([Bin(MOV, R6, R3), MovI(i, R0), Bin(SHLD, R0, R3), Bin(MOV, R3, R0), AndI(1), Bin(MOV, R0, R6)], h);
      SameGuest(h, h') && h'.r1 == h.r1 && h'.r2 == h.r2 && h'.r6 == AndW(ShldOf(SExt8(i), h.r6), 1)
  {
    hide Run, ShldOf, SExt8, AndW;
    Run6(Bin(MOV, R6, R3), MovI(i, R0), Bin(SHLD, R0, R3), Bin(MOV, R3, R0), AndI(1), Bin(MOV, R0, R6), h);
  }

  // ---- ARM shift of the second operand by a register, result only -----------

  function RegPrologue(rm: nat, rs: nat, val: Reg): seq<Op> {
    [LoadGreg(rm, val), LoadGreg(rs, R0), AndI(0xFF), Test(TST, R0, R0)]
  }
  function RorBody(): seq<Op> {
    [Bin(MOV, R2, R4), Bin(NEG, R0, R5), Bin(SHLD, R5, R4), MovI(32, R5), Bin(SUB, R0, R5),
     Bin(SHLD, R5, R2), Bin(OR, R4, R2)]
  }
  function Over32(): seq<Op> { [Bin(MOV, R0, R3), AddI(-32, R3), Test(CMPPZ, R3, R3)] }
  function SmallOps(kind: nat): seq<Op> {
    if kind == 0 then [Bin(SHLD, R0, R2)]
    else [Bin(NEG, R0, R4), Bin(if kind == 1 then SHLD else SHAD, R4, R2)]
  }
  function BigOps(kind: nat): seq<Op> {
    if kind == 2 then [MovI(-31, R4), Bin(SHAD, R4, R2)] else [MovI(0, R2)]
  }
  function RegBody(kind: nat): seq<Op> {
    if kind == 3 then [AndI(0x1F), Test(TST, R0, R0)] + SkipIfT(RorBody())
    else Over32() + Branches(BigOps(kind), SmallOps(kind))
  }

  /** sh4g_arm_shift_reg_op2_noflags. */
  function ShiftRegCode(kind: nat, rm: nat, rs: nat): seq<Op> {
    RegPrologue(rm, rs, R2) + SkipIfT(RegBody(kind))
  }

  /** The operand arm_shifter_operand yields for a register amount. */
  function ShiftByReg(kind: nat, amount: nat, val: Word, c: bool): Shifted
    requires kind < 4
  { if amount == 0 then Shifted(val, c) else Shift(kind, amount, val, c) }

  predicate OperandDone(h: Host, h': Host) { SameGuest(h, h') && h'.r1 == h.r1 }

  lemma PrologueRun(rm: nat, rs: nat, h: Host)
    requires rm < 16 && rs < 16
    ensures var h' := Run(RegPrologue(rm, rs, R2), h);
      h' == h.(r0 := View(h).r[rs] % 256, r2 := View(h).r[rm], t := View(h).r[rs] % 256 == 0)
  {
    var h1 := Step(LoadGreg(rm, R2), h);
    LoadGregStep(rm, R2, h); LoadGregStep(rs, R0, h1);
    AndByte(View(h).r[rs]); AndSelf(View(h).r[rs] % 256);
    hide Run, AndW, LoadGreg;
    assert View(h1).r == View(h).r;
    Run4(LoadGreg(rm, R2), LoadGreg(rs, R0), AndI(0xFF), Test(TST, R0, R0), h);
  }

  lemma Over32Run(h: Host)
    requires h.r0 < 256
    ensures Run(Over32(), h) == h.(r3 := SubW(h.r0, 32), t := h.r0 >= 32)
  {
    assert SExt8(-32) == 0xFFFF_FFE0;
    hide Run;
    Run3(Bin(MOV, R0, R3), AddI(-32, R3), Test(CMPPZ, R3, R3), h);
  }

  lemma SmallValue(kind: nat, k: nat, x: Word, c: bool)
    requires kind < 3 && 1 <= k < 32
    ensures Shift(kind, k, x, c).value == if kind == 0 then Lsl(x, k) else if kind == 1 then Lsr(x, k) else Asr(x, k)
    ensures Shift(kind, k, x, c).carry == BitOf(x, if kind == 0 then 32 - k else k - 1)
  { hide Lsl, Lsr, Asr, BitOf; }
  lemma BigValue(kind: nat, k: nat, x: Word, c: bool)
    requires kind < 3 && k >= 32
    ensures Shift(kind, k, x, c).value == if kind == 2 then Asr(x, 31) else 0
  { hide Lsl, Lsr, Asr, BitOf; }

  lemma SmallRun(kind: nat, c: bool, h: Host)
    requires kind < 3 && 1 <= h.r0 < 32
    ensures var h' := Run(SmallOps(kind), h);
      OperandDone(h, h') && h'.r2 == Shift(kind, h.r0, h.r2, c).value
  {
    hide *;
    Left(h.r2, h.r0); Right(h.r2, h.r0); SmallValue(kind, h.r0, h.r2, c);
    if kind == 0 { SmallLeft(h); } else { SmallDown(kind, h); }
  }
  lemma SmallLeft(h: Host)
    ensures var h' := Run(SmallOps(0), h); OperandDone(h, h') && h'.r2 == ShldOf(h.r0, h.r2)
  { hide Run, ShldOf; Run1(Bin(SHLD, R0, R2), h); }
  lemma SmallDown(kind: nat, h: Host)
    requires kind == 1 || kind == 2
    ensures var h' := Run(SmallOps(kind), h);
      OperandDone(h, h') && h'.r2 == if kind == 1 then ShldOf(SubW(0, h.r0), h.r2) else ShadOf(SubW(0, h.r0), h.r2)
  {
    hide Run, ShldOf, ShadOf, SubW;
    if kind == 1 {
      Run2(Bin(NEG, R0, R4), Bin(SHLD, R4, R2), h);
    } else {
      Run2(Bin(NEG, R0, R4), Bin(SHAD, R4, R2), h);
    }
  }
  lemma BigRun(kind: nat, c: bool, h: Host)
    requires kind < 3 && h.r0 >= 32
    ensures var h' := Run(BigOps(kind), h);
      OperandDone(h, h') && h'.r2 == Shift(kind, h.r0, h.r2, c).value
  {
    hide *;
    Right(h.r2, 31); ZeroImm(); BigValue(kind, h.r0, h.r2, c);
    assert 0 - 31 == -31;
    if kind == 2 { BigSign(h); } else { BigZero(kind, h); }
  }
  lemma BigSign(h: Host)
    ensures var h' := Run(BigOps(2), h); OperandDone(h, h') && h'.r2 == ShadOf(SExt8(-31), h.r2)
  { hide Run, ShadOf, SExt8; Run2(MovI(-31, R4), Bin(SHAD, R4, R2), h); }
  lemma BigZero(kind: nat, h: Host)
    requires kind != 2
    ensures var h' := Run(BigOps(kind), h); OperandDone(h, h') && h'.r2 == SExt8(0)
  { hide Run, SExt8; Run1(MovI(0, R2), h); }
  lemma RorBodyRun(h: Host)
    requires 1 <= h.r0 < 32
    ensures var h' := Run(RorBody(), h);
      OperandDone(h, h') && h'.r2 == OrW(Lsl(h.r2, 32 - h.r0), Lsr(h.r2, h.r0))
  {
    Left(h.r2, 32 - h.r0); Right(h.r2, h.r0);
    assert SubW(SExt8(32), h.r0) == 32 - h.r0;
    RorBodySymbolic(h);
    hide Run, Step, RorBody, Lsl, Lsr, Asr, ShldOf, ShadOf, SExt8, SubW, OrW;
  }
  lemma RorBodySymbolic(h: Host)
    ensures var h' := Run(RorBody(), h);
      OperandDone(h, h')
      && h'.r2 == OrW(ShldOf(SubW(SExt8(32), h.r0), h.r2), ShldOf(SubW(0, h.r0), h.r2))
  {
    hide Run, ShldOf, ShadOf, SExt8, SubW, OrW;
    Run7(Bin(MOV, R2, R4), Bin(NEG, R0, R5), Bin(SHLD, R5, R4), MovI(32, R5), Bin(SUB, R0, R5),
         Bin(SHLD, R5, R2), Bin(OR, R4, R2), h);
  }

  lemma RegBodyExec(kind: nat, c: bool, h: Host)
    requires kind < 4 && 1 <= h.r0 < 256
    ensures var o := Exec(RegBody(kind), h);
      o.Some? && OperandDone(h, o.value) && o.value.r2 == Shift(kind, h.r0, h.r2, c).value
  {
    hide Exec, Run, Step, Shift, RorBody, SmallOps, BigOps;
    if kind == 3 { RorExec(c, h); }
    else {
      Over32Run(h);
      var h1 := Run(Over32(), h);
      assert Straight(Over32()) && Straight(SmallOps(kind)) && Straight(BigOps(kind)) by { StraightParts(kind); }
      hide Over32;
      ExecStraightThen(Over32(), Branches(BigOps(kind), SmallOps(kind)), h);
      ExecStraight(if h1.t then BigOps(kind) else SmallOps(kind), h1);
      ExecBranches(BigOps(kind), SmallOps(kind), h1);
      if h1.t { BigRun(kind, c, h1); } else { SmallRun(kind, c, h1); }
    }
  }
  lemma StraightParts(kind: nat)
    ensures Straight(Over32()) && Straight(SmallOps(kind)) && Straight(BigOps(kind)) && Straight(RorBody())
  {}
  lemma RorMaskRun(h: Host)
    ensures Run([AndI(0x1F), Test(TST, R0, R0)], h) == h.(r0 := h.r0 % 32, t := h.r0 % 32 == 0)
  {
    AndByte(h.r0); AndSelf(h.r0 % 32);
    hide Run, AndW;
    Run2(AndI(0x1F), Test(TST, R0, R0), h);
  }
  lemma RorExec(c: bool, h: Host)
    requires 1 <= h.r0 < 256
    ensures var o := Exec(RegBody(3), h);
      o.Some? && OperandDone(h, o.value) && o.value.r2 == Shift(3, h.r0, h.r2, c).value
  {
    hide Exec, Run, Step, RorBody, Lsl, Lsr, OrW, BitOf;
    StraightParts(3);
    var mask := [AndI(0x1F), Test(TST, R0, R0)];
    RorMaskRun(h);
    var h1 := Run(mask, h);
    ExecStraightThen(mask, SkipIfT(RorBody()), h);
    assert RorBody() != [] by { RorNonEmpty(); }
    ExecSkip(RorBody(), h1);
    if !h1.t {
      ExecStraight(RorBody(), h1);
      RorBodyRun(h1);
      OrComm(Lsl(h.r2, 32 - h1.r0), Lsr(h.r2, h1.r0));
    }
  }
  lemma RorNonEmpty() ensures RorBody() != [] {}

  lemma ShiftRegExec(kind: nat, rm: nat, rs: nat, c: bool, h: Host)
    requires kind < 4 && rm < 16 && rs < 16
    ensures var o := Exec(ShiftRegCode(kind, rm, rs), h);
      o.Some? && OperandDone(h, o.value)
      && o.value.r2 == ShiftByReg(kind, View(h).r[rs] % 256, View(h).r[rm], c).value
  {
    PrologueRun(rm, rs, h);
    StraightPrologue(rm, rs);
    hide Exec, Run, Step, Shift, RegBody, RegPrologue;
    var p := RegPrologue(rm, rs, R2);
    var h1 := Run(p, h);
    ExecStraightThen(p, SkipIfT(RegBody(kind)), h);
    assert RegBody(kind) != [] by { BodyNonEmpty(kind); }
    ExecSkip(RegBody(kind), h1);
    if !h1.t { RegBodyExec(kind, c, h1); }
  }
  lemma StraightPrologue(rm: nat, rs: nat)
    ensures Straight(RegPrologue(rm, rs, R2)) && Straight(RegPrologue(rm, rs, R1))
  {}
  lemma BodyNonEmpty(kind: nat) ensures RegBody(kind) != [] {}

  // ---- Thumb immediate shifts -------------------------------------------------

  function FlagsNzc(live: Live, wantC: bool): Eff { FlagsRound(Live(live.n, live.z, live.c && wantC, false)) }

  function ThumbCarryOps(kind: nat, imm5: nat): seq<Op> {
    if imm5 == 0 then [Bin(MOV, R1, R4), Un(SHLL, R4), Un(MOVT, R4)]
    else [Bin(MOV, R1, R4), MovI(if kind == 0 then 0 - (32 - imm5) else 0 - (imm5 - 1), R0),
          Bin(SHLD, R0, R4), Bin(MOV, R4, R0), AndI(1), Bin(MOV, R0, R4)]
  }
  function ThumbShiftOps(kind: nat, imm5: nat): seq<Op> {
    if imm5 != 0 then
      [MovI(if kind == 0 then imm5 else 0 - imm5, R0), Bin(if kind == 2 then SHAD else SHLD, R0, R1)]
    else if kind == 1 then [MovI(0, R1)]
    else if kind == 2 then [MovI(-31, R0), Bin(SHAD, R0, R1)]
    else []
  }

  /** sh4g_shift_imm. */
  function ShiftImmCode(kind: nat, rd: nat, rs: nat, imm5: nat, live: Live): seq<Op> {
    var wantC := live.c && !(kind == 0 && imm5 == 0);
    [LoadGreg(rs, R1)] + ((if wantC then ThumbCarryOps(kind, imm5) else [])
    + (ThumbShiftOps(kind, imm5) + TailCode(true, rd, R4, R4, FlagsNzc(live, wantC))))
  }

  lemma ThumbShiftRun(kind: nat, imm5: nat, c: bool, h: Host)
    requires kind < 3 && imm5 < 32
    ensures var h' := Run(ThumbShiftOps(kind, imm5), h);
      SameGuest(h, h') && h'.r4 == h.r4 && h'.r1 == Shift(kind, imm5, h.r1, c).value
  {
    ZeroImm();
    if imm5 != 0 {
      Left(h.r1, imm5); Right(h.r1, imm5); SmallValue(kind, imm5, h.r1, c);
      hide Run, Lsl, Lsr, Asr, ShldOf, ShadOf, SExt8, BitOf, Shift;
      Run2(MovI(if kind == 0 then imm5 else 0 - imm5, R0), Bin(if kind == 2 then SHAD else SHLD, R0, R1), h);
    } else if kind == 2 {
      Right(h.r1, 31);
      hide Run, Lsl, Lsr, Asr, ShldOf, ShadOf, SExt8, BitOf;
      assert 0 - 31 == -31;
      Run2(MovI(-31, R0), Bin(SHAD, R0, R1), h);
    } else if kind == 1 {
      hide Run, Lsl, Lsr, Asr, ShldOf, ShadOf, SExt8, BitOf;
      Run1(MovI(0, R1), h);
    }
  }

  lemma ThumbCarryRun(kind: nat, imm5: nat, c: bool, h: Host)
    requires kind < 3 && imm5 < 32 && !(kind == 0 && imm5 == 0)
    ensures var h' := Run(ThumbCarryOps(kind, imm5), h);
      SameGuest(h, h') && h'.r1 == h.r1 && h'.r4 == Bit(Shift(kind, imm5, h.r1, c).carry)
  {
    if imm5 == 0 { ThumbCarryWhole(kind, c, h); } else { ThumbCarryPart(kind, imm5, c, h); }
  }
  lemma ThumbCarryWhole(kind: nat, c: bool, h: Host)
    requires 1 <= kind < 3
    ensures var h' := Run(ThumbCarryOps(kind, 0), h);
      SameGuest(h, h') && h'.r1 == h.r1 && h'.r4 == Bit(Shift(kind, 0, h.r1, c).carry)
  {
    hide Run, Shl1, BitOf, Neg31, Asr, Lsr;
    TopBit(h.r1);
    Run3(Bin(MOV, R1, R4), Un(SHLL, R4), Un(MOVT, R4), h);
  }
  lemma ThumbCarryPart(kind: nat, imm5: nat, c: bool, h: Host)
    requires kind < 3 && 0 < imm5 < 32
    ensures var h' := Run(ThumbCarryOps(kind, imm5), h);
      SameGuest(h, h') && h'.r1 == h.r1 && h'.r4 == Bit(Shift(kind, imm5, h.r1, c).carry)
  {
    hide Run, Step, Lsl, Lsr, Asr, ShldOf, SExt8, AndW, Shift;
    var down := if kind == 0 then 32 - imm5 else imm5 - 1;
    CarryCount(h.r1, down + 1); AndOne(Lsr(h.r1, down)); SmallValue(kind, imm5, h.r1, c);
    ThumbCarrySymbolic(0 - down, h);
  }
  lemma ThumbCarrySymbolic(i: int, h: Host)
    ensures var h' := Run([Bin(MOV, R1, R4), MovI(i, R0), Bin(SHLD, R0, R4), Bin(MOV, R4, R0), AndI(1), Bin(MOV, R0, R4)], h);
      SameGuest(h, h') && h'.r1 == h.r1 && h'.r4 == AndW(ShldOf(SExt8(i), h.r1), 1)
  {
    hide Run, ShldOf, SExt8, AndW;
    Run6(Bin(MOV, R1, R4), MovI(i, R0), Bin(SHLD, R0, R4), Bin(MOV, R4, R0), AndI(1), Bin(MOV, R0, R4), h);
  }

  lemma ShiftImmRun(kind: nat, rd: nat, rs: nat, imm5: nat, live: Live, h: Host)
    requires kind < 3 && rd < 16 && rs < 16 && imm5 < 32
    ensures var sh := Shift(kind, imm5, View(h).r[rs], C(h.r8));
      var wantC := live.c && !(kind == 0 && imm5 == 0);
      View(Run(ShiftImmCode(kind, rd, rs, imm5, live), h)) ==
        Commit(View(h), true, rd, FlagsNzc(live, wantC), sh.value, sh.carry, false)
  {
    hide Run, Step, Shift, ThumbCarryOps, ThumbShiftOps, TailCode, LoadGreg;
    var wantC := live.c && !(kind == 0 && imm5 == 0);
    var carry := if wantC then ThumbCarryOps(kind, imm5) else [];
    var tail := TailCode(true, rd, R4, R4, FlagsNzc(live, wantC));
    var load := LoadGreg(rs, R1);
    var h1 := Step(load, h);
    LoadGregStep(rs, R1, h);
    TailStore(load, carry + (ThumbShiftOps(kind, imm5) + tail), h);
    RunSplit(carry, ThumbShiftOps(kind, imm5) + tail, h1);
    if wantC { ThumbCarryRun(kind, imm5, C(h.r8), h1); } else { RunNil(h1); }
    var h2 := Run(carry, h1);
    RunSplit(ThumbShiftOps(kind, imm5), tail, h2);
    ThumbShiftRun(kind, imm5, C(h.r8), h2);
    TailRun(true, rd, R4, R4, FlagsNzc(live, wantC), Run(ThumbShiftOps(kind, imm5), h2));
    CommitNoV(View(h), rd, FlagsNzc(live, wantC), Shift(kind, imm5, View(h).r[rs], C(h.r8)));
  }
  /** The V input is not read unless V is live. */
  lemma CommitNoV(g: Guest, rd: nat, eff: Eff, sh: Shifted)
    requires rd < 16 && eff != ToV
    ensures forall c, v :: (eff.HasC() ==> c == sh.carry) ==>
      Commit(g, true, rd, eff, sh.value, c, v) == Commit(g, true, rd, eff, sh.value, sh.carry, false)
  { hide Pack; }

  // ---- Thumb shifts by register, with the shifter carry ------------------------

  function TopCarry(wantC: bool): seq<Op> {
    if wantC then [Bin(MOV, R1, R4), Un(SHLL, R4), Un(MOVT, R4)] else []
  }
  function RorRegBody(): seq<Op> {
    [Bin(MOV, R1, R4), Bin(NEG, R0, R6), Bin(SHLD, R6, R4), MovI(32, R5), Bin(SUB, R0, R5),
     Bin(SHLD, R5, R1), Bin(OR, R4, R1)]
  }
  function SmallCarry(kind: nat): seq<Op> {
    if kind == 0 then [Bin(MOV, R1, R4), Bin(SHLD, R3, R4), MovI(1, R5), Bin(AND, R5, R4)]
    else [MovI(1, R5), Bin(SUB, R0, R5), Bin(MOV, R1, R4), Bin(SHLD, R5, R4), MovI(1, R5), Bin(AND, R5, R4)]
  }
  function SmallRegOps(kind: nat): seq<Op> {
    if kind == 0 then [Bin(SHLD, R0, R1)]
    else [Bin(NEG, R0, R6), Bin(if kind == 1 then SHLD else SHAD, R6, R1)]
  }
  function BigCarry(kind: nat): seq<Op> {
    if kind == 0 then
      [Test(TST, R3, R3), Un(MOVT, R5), Bin(MOV, R1, R4), MovI(1, R6), Bin(AND, R6, R4), Bin(AND, R5, R4)]
    else
      [Test(TST, R3, R3), Un(MOVT, R5), Bin(MOV, R1, R4), Un(SHLL, R4), Un(MOVT, R4), Bin(AND, R5, R4)]
  }
  function BigRegOps(kind: nat, wantC: bool): seq<Op> {
    if kind == 2 then TopCarry(wantC) + [MovI(-31, R6), Bin(SHAD, R6, R1)]
    else (if wantC then BigCarry(kind) else []) + [MovI(0, R1)]
  }
  function ThumbRegBody(kind: nat, wantC: bool): seq<Op> {
    if kind == 3 then [AndI(0x1F), Test(TST, R0, R0)] + (SkipIfT(RorRegBody()) + TopCarry(wantC))
    else Over32() + Branches(BigRegOps(kind, wantC), (if wantC then SmallCarry(kind) else []) + SmallRegOps(kind))
  }

  /** sh4g_thumb_shift_reg_native. */
  function ThumbShiftRegCode(kind: nat, rd: nat, rs: nat, live: Live): seq<Op> {
    RegPrologue(rd, rs, R1)
    + Branches(SetFlagsCode(R4, R4, FlagsRound(NzOnly(live))),
               ThumbRegBody(kind, live.c) + TailCode(true, rd, R4, R4, FlagsNzc(live, live.c)))
  }

  predicate ShiftDone(h: Host, h': Host, wantC: bool, sh: Shifted) {
    SameGuest(h, h') && h'.r1 == sh.value && (wantC ==> h'.r4 == Bit(sh.carry))
  }

  lemma TopCarryRun(wantC: bool, h: Host)
    ensures var h' := Run(TopCarry(wantC), h);
      Straight(TopCarry(wantC)) && SameGuest(h, h') && h'.r1 == h.r1 && h'.r3 == h.r3
      && (wantC ==> h'.r4 == Bit(Neg31(h.r1)))
  {
    if wantC {
      hide Run, Shl1, Neg31;
      Run3(Bin(MOV, R1, R4), Un(SHLL, R4), Un(MOVT, R4), h);
    }
  }

  lemma RorRegRun(h: Host)
    requires 1 <= h.r0 < 32
    ensures var h' := Run(RorRegBody(), h);
      Straight(RorRegBody()) && SameGuest(h, h') && h'.r1 == OrW(Lsl(h.r1, 32 - h.r0), Lsr(h.r1, h.r0))
  {
    Left(h.r1, 32 - h.r0); Right(h.r1, h.r0);
    assert SubW(SExt8(32), h.r0) == 32 - h.r0;
    RorRegSymbolic(h);
    hide Run, Step, RorRegBody, Lsl, Lsr, Asr, ShldOf, ShadOf, SExt8, SubW, OrW;
  }
  lemma RorRegSymbolic(h: Host)
    ensures var h' := Run(RorRegBody(), h);
      Straight(RorRegBody()) && SameGuest(h, h')
      && h'.r1 == OrW(ShldOf(SubW(SExt8(32), h.r0), h.r1), ShldOf(SubW(0, h.r0), h.r1))
  {
    hide Run, ShldOf, ShadOf, SExt8, SubW, OrW;
    Run7(Bin(MOV, R1, R4), Bin(NEG, R0, R6), Bin(SHLD, R6, R4), MovI(32, R5), Bin(SUB, R0, R5),
         Bin(SHLD, R5, R1), Bin(OR, R4, R1), h);
  }

  lemma SmallCarryRun(kind: nat, c: bool, h: Host)
    requires kind < 3 && 1 <= h.r0 < 32 && h.r3 == SubW(h.r0, 32)
    ensures var h' := Run(SmallCarry(kind), h);
      SameGuest(h, h') && h'.r0 == h.r0 && h'.r1 == h.r1 && h'.r4 == Bit(Shift(kind, h.r0, h.r1, c).carry)
  {
    var down := if kind == 0 then 32 - h.r0 else h.r0 - 1;
    assert h.r3 == SubW(0, 32 - h.r0);
    Right(h.r1, 32 - h.r0); CarryCount(h.r1, h.r0); SmallValue(kind, h.r0, h.r1, c);
    AndOne(Lsr(h.r1, down));
    ZeroImm();
    if kind == 0 { SmallCarryLsl(h); } else { SmallCarryDown(kind, h); }
    hide Run, Step, SmallCarry, Lsl, Lsr, Asr, ShldOf, ShadOf, SExt8, SubW, AndW, Shift;
  }
  lemma SmallCarryLsl(h: Host)
    ensures var h' := Run(SmallCarry(0), h);
      SameGuest(h, h') && h'.r0 == h.r0 && h'.r1 == h.r1 && h'.r4 == AndW(ShldOf(h.r3, h.r1), 1)
  {
    ZeroImm();
    hide Run, ShldOf, SExt8, AndW;
    Run4(Bin(MOV, R1, R4), Bin(SHLD, R3, R4), MovI(1, R5), Bin(AND, R5, R4), h);
  }
  lemma SmallCarryDown(kind: nat, h: Host)
    requires kind != 0
    ensures var h' := Run(SmallCarry(kind), h);
      SameGuest(h, h') && h'.r0 == h.r0 && h'.r1 == h.r1 && h'.r4 == AndW(ShldOf(SubW(1, h.r0), h.r1), 1)
  {
    ZeroImm();
    hide Run, ShldOf, SExt8, AndW, SubW;
    Run6(MovI(1, R5), Bin(SUB, R0, R5), Bin(MOV, R1, R4), Bin(SHLD, R5, R4), MovI(1, R5), Bin(AND, R5, R4), h);
  }
  lemma SmallRegRun(kind: nat, c: bool, h: Host)
    requires kind < 3 && 1 <= h.r0 < 32
    ensures var h' := Run(SmallRegOps(kind), h);
      SameGuest(h, h') && h'.r4 == h.r4 && h'.r1 == Shift(kind, h.r0, h.r1, c).value
  {
    hide *;
    Left(h.r1, h.r0); Right(h.r1, h.r0); SmallValue(kind, h.r0, h.r1, c);
    if kind == 0 { SmallRegLeft(h); } else { SmallRegDown(kind, h); }
  }
  lemma SmallRegLeft(h: Host)
    ensures var h' := Run(SmallRegOps(0), h); SameGuest(h, h') && h'.r4 == h.r4 && h'.r1 == ShldOf(h.r0, h.r1)
  { hide Run, ShldOf; Run1(Bin(SHLD, R0, R1), h); }
  lemma SmallRegDown(kind: nat, h: Host)
    requires kind == 1 || kind == 2
    ensures var h' := Run(SmallRegOps(kind), h);
      SameGuest(h, h') && h'.r4 == h.r4
      && h'.r1 == if kind == 1 then ShldOf(SubW(0, h.r0), h.r1) else ShadOf(SubW(0, h.r0), h.r1)
  {
    hide Run, ShldOf, ShadOf, SubW;
    if kind == 1 {
      Run2(Bin(NEG, R0, R6), Bin(SHLD, R6, R1), h);
    } else {
      Run2(Bin(NEG, R0, R6), Bin(SHAD, R6, R1), h);
    }
  }
  lemma SmallExec(kind: nat, wantC: bool, c: bool, h: Host)
    requires kind < 3 && 1 <= h.r0 < 32 && h.r3 == SubW(h.r0, 32)
    ensures var code := (if wantC then SmallCarry(kind) else []) + SmallRegOps(kind);
      Straight(code) && ShiftDone(h, Run(code, h), wantC, Shift(kind, h.r0, h.r1, c))
  {
    var p := if wantC then SmallCarry(kind) else [];
    assert Straight(p) && Straight(SmallRegOps(kind));
    if wantC { SmallCarryRun(kind, c, h); } else { RunNil(h); }
    SmallRegRun(kind, c, Run(p, h));
    RunSplit(p, SmallRegOps(kind), h);
    hide Run, Step, SmallCarry, SmallRegOps, Shift, SubW;
  }

  lemma BigCarryRun(kind: nat, c: bool, h: Host)
    requires kind < 2 && h.r0 >= 32 && h.r3 == h.r0 - 32
    ensures var h' := Run(BigCarry(kind), h);
      SameGuest(h, h') && h'.r4 == Bit(Shift(kind, h.r0, h.r1, c).carry)
  {
    AndSelf(h.r3); AndOne(h.r1); TopBit(h.r1);
    AndBits(if kind == 0 then h.r1 % 2 == 1 else Neg31(h.r1), h.r3 == 0);
    BigCarryValue(kind, h.r0, h.r1, c);
    if kind == 0 { BigCarryLsl(h); } else { BigCarryLsr(h); }
    hide Run, Step, BigCarry, AndW, Shift, BitOf, Neg31;
  }
  lemma BigCarryValue(kind: nat, k: nat, x: Word, c: bool)
    requires kind < 2 && k >= 32
    ensures Shift(kind, k, x, c).carry == ((if kind == 0 then x % 2 == 1 else BitOf(x, 31)) && k == 32)
  { hide BitOf, Lsl, Lsr; }
  lemma BigCarryLsl(h: Host)
    ensures var h' := Run(BigCarry(0), h);
      SameGuest(h, h') && h'.r4 == AndW(AndW(h.r1, 1), Bit(AndW(h.r3, h.r3) == 0))
  {
    ZeroImm();
    hide Run, SExt8, AndW;
    Run6(Test(TST, R3, R3), Un(MOVT, R5), Bin(MOV, R1, R4), MovI(1, R6), Bin(AND, R6, R4), Bin(AND, R5, R4), h);
  }
  lemma BigCarryLsr(h: Host)
    ensures var h' := Run(BigCarry(1), h);
      SameGuest(h, h') && h'.r4 == AndW(Bit(Neg31(h.r1)), Bit(AndW(h.r3, h.r3) == 0))
  {
    hide Run, AndW, Shl1, Neg31, Bit;
    Run6(Test(TST, R3, R3), Un(MOVT, R5), Bin(MOV, R1, R4), Un(SHLL, R4), Un(MOVT, R4), Bin(AND, R5, R4), h);
  }

  lemma BigExec(kind: nat, wantC: bool, c: bool, h: Host)
    requires kind < 3 && h.r0 >= 32 && h.r3 == h.r0 - 32
    ensures var code := BigRegOps(kind, wantC);
      Straight(code) && ShiftDone(h, Run(code, h), wantC, Shift(kind, h.r0, h.r1, c))
  {
    BigValue(kind, h.r0, h.r1, c);
    if kind == 2 {
      TopCarryRun(wantC, h);
      var h1 := Run(TopCarry(wantC), h);
      FillRun(h1);
      TopBit(h.r1); AsrCarry(h.r0, h.r1, c);
      RunSplit(TopCarry(wantC), [MovI(-31, R6), Bin(SHAD, R6, R1)], h);
      hide Run, Step, TopCarry, Shift, Asr, BitOf, Neg31;
    } else {
      var p := if wantC then BigCarry(kind) else [];
      assert Straight(p);
      if wantC { BigCarryRun(kind, c, h); } else { RunNil(h); }
      ZeroRun(Run(p, h));
      RunSplit(p, [MovI(0, R1)], h);
      hide Run, Step, BigCarry, Shift;
    }
  }
  lemma AsrCarry(k: nat, x: Word, c: bool)
    requires k >= 32
    ensures Shift(2, k, x, c).carry == BitOf(x, 31)
  { hide BitOf, Asr; }
  lemma ZeroRun(h: Host)
    ensures Run([MovI(0, R1)], h) == h.(r1 := 0)
  { ZeroImm(); hide SExt8, Run; Run1(MovI(0, R1), h); }
  lemma FillRun(h: Host)
    ensures var h' := Run([MovI(-31, R6), Bin(SHAD, R6, R1)], h);
      SameGuest(h, h') && h'.r4 == h.r4 && h'.r1 == Asr(h.r1, 31)
  {
    Right(h.r1, 31);
    assert 0 - 31 == -31;
    hide Run, ShadOf, ShldOf, SExt8, Asr;
    Run2(MovI(-31, R6), Bin(SHAD, R6, R1), h);
  }

  lemma ThumbRegExec(kind: nat, wantC: bool, c: bool, h: Host)
    requires kind < 4 && 1 <= h.r0 < 256
    ensures var o := Exec(ThumbRegBody(kind, wantC), h);
      o.Some? && ShiftDone(h, o.value, wantC, Shift(kind, h.r0, h.r1, c))
  {
    if kind == 3 { ThumbRorExec(wantC, c, h); }
    else {
      Over32Run(h); StraightParts(kind);
      hide Exec, Run, Step, Shift, SmallCarry, SmallRegOps, BigRegOps, Over32;
      var h1 := Run(Over32(), h);
      var small := (if wantC then SmallCarry(kind) else []) + SmallRegOps(kind);
      ExecStraightThen(Over32(), Branches(BigRegOps(kind, wantC), small), h);
      if h1.t { BigExec(kind, wantC, c, h1); ExecStraight(BigRegOps(kind, wantC), h1); }
      else { SmallExec(kind, wantC, c, h1); ExecStraight(small, h1); }
      ExecBranches(BigRegOps(kind, wantC), small, h1);
    }
  }

  lemma ThumbRorExec(wantC: bool, c: bool, h: Host)
    requires 1 <= h.r0 < 256
    ensures var o := Exec(ThumbRegBody(3, wantC), h);
      o.Some? && ShiftDone(h, o.value, wantC, Shift(3, h.r0, h.r1, c))
  {
    var mask := [AndI(0x1F), Test(TST, R0, R0)];
    RorMaskRun(h);
    var h1 := Run(mask, h);
    assert RorRegBody() != [];
    RorRegValue(h.r0, h.r1, c);
    hide Exec, Run, Step, Shift, RorRegBody, TopCarry, Lsl, Lsr, OrW, BitOf, Neg31;
    ExecStraightThen(mask, SkipIfT(RorRegBody()) + TopCarry(wantC), h);
    if !h1.t { RorRegRun(h1); ExecStraight(RorRegBody(), h1); }
    ExecSkip(RorRegBody(), h1);
    var h2 := Exec(SkipIfT(RorRegBody()), h1).value;
    ExecAppend(SkipIfT(RorRegBody()), TopCarry(wantC), h1);
    TopCarryRun(wantC, h2);
    ExecStraight(TopCarry(wantC), h2);
  }
  /** Either way the carry is the top bit of the rotated value. */
  lemma RorRegValue(k: nat, x: Word, c: bool)
    requires 1 <= k < 256
    ensures var sh, n := Shift(3, k, x, c), k % 32;
      sh.value == (if n == 0 then x else OrW(Lsl(x, 32 - n), Lsr(x, n))) && sh.carry == Neg31(sh.value)
  {
    var n := k % 32;
    TopBit(x);
    if n != 0 { RorTop(x, n); OrComm(Lsl(x, 32 - n), Lsr(x, n)); }
    hide Lsl, Lsr, OrW, BitOf, Neg31;
  }
}
