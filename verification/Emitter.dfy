/** The code cursor: emitters append operations and back-patch branch placeholders.
    Each method emits exactly the code its correctness theorem is about. */
module Emitters {
  import opened Words
  import opened Guest
  import Oracle = Guest
  import opened Sh4
  import opened Alu
  import opened Shifts
  import opened ArmDp
  import opened Multiply
  import opened Thumb
  import opened Cond

  /** Wherever the host stands, running `added` does to the guest what the C helper does. */
  ghost predicate ActsAsArmDp(added: seq<Op>, opcode: Word, pc: Word, live: Live) {
    forall h: Host :: var o := Exec(added, h);
      o.Some? && AgreesOut(live, View(h), View(o.value), Oracle.ArmDp(opcode, pc, View(h)))
  }
  ghost predicate ActsAsThumbDp(added: Emitted, opcode: Word, pc: Word, live: Live) {
    forall h: Host :: Correct(live, h, added, ThumbDp(opcode, pc, View(h)))
  }
  ghost predicate ActsAsMul(added: seq<Op>, opcode: Word, live: Live) {
    forall h: Host :: var o := Exec(added, h);
      o.Some? && Agrees(live, View(h), View(o.value), ArmMultiply(opcode, View(h)))
  }
  ghost predicate ActsAsMulLong(added: seq<Op>, opcode: Word, live: Live) {
    forall h: Host :: var o := Exec(added, h);
      o.Some? && Agrees(live, View(h), View(o.value), ArmMultiplyLong(opcode, View(h)))
  }
  ghost predicate TestsCond(added: seq<Op>, cond: nat)
    requires cond < 16
  {
    forall h: Host :: Exec(added, h).Some?
      && SameGuest(h, Exec(added, h).value) && Exec(added, h).value.t == Passes(cond, h.r8)
  }

  class Emitter {
    var code: seq<Op>

    constructor ()
      ensures code == []
    { code := []; }

    method Block(ops: seq<Op>)
      modifies this
      ensures code == old(code) + ops
    { code := code + ops; }

    method BlockIf(wanted: bool, ops: seq<Op>)
      modifies this
      ensures code == old(code) + if wanted then ops else []
    { if wanted { Block(ops); } }

    /** sh4g_emit_bt_placeholder. */
    method BtPlaceholder() returns (site: nat)
      modifies this
      ensures site == old(|code|) && code == old(code) + [Bt(0)]
    { site := |code|; code := code + [Bt(0)]; }

    /** sh4g_emit_bra_placeholder, with its delay-slot NOP. */
    method BraPlaceholder() returns (site: nat)
      modifies this
      ensures site == old(|code|) && code == old(code) + [Bra(0), Nop]
    { site := |code|; code := code + [Bra(0), Nop]; }

    /** sh4g_patch_cond to the cursor: the displacement counts from two past the site. */
    method PatchCond(site: nat)
      requires site < |code| && code[site].Bt?
      modifies this
      ensures code == old(code)[site := Bt(old(|code|) - (site + 2))]
    { code := code[site := Bt(|code| - (site + 2))]; }

    /** sh4g_patch_bra to the cursor. */
    method PatchBra(site: nat)
      requires site < |code| && code[site].Bra?
      modifies this
      ensures code == old(code)[site := Bra(old(|code|) - (site + 2))]
    { code := code[site := Bra(|code| - (site + 2))]; }

    /** sh4g_set_flags with the result in R1. */
    method SetFlags(rc: Reg, rv: Reg, eff: Eff)
      modifies this
      ensures code == old(code) + SetFlagsCode(rc, rv, eff)
    {
      if eff == None0 { return; }
      hide DropTop, RotIn, RotZ, RotN;
      Block([Bin(MOV, R8, R2)]);
      Block(DropTop(eff));
      Rotations(rc, rv, eff);
      FlagParts(old(code), rc, rv, eff);
    }
    method Rotations(rc: Reg, rv: Reg, eff: Eff)
      modifies this
      ensures code == old(code) + RotationCode(rc, rv, eff)
    {
      hide RotIn, RotZ, RotN;
      BlockIf(eff == ToV, RotIn(rv));
      BlockIf(eff.HasC(), RotIn(rc));
      BlockIf(eff.HasZ(), RotZ());
      Block(RotN());
    }

    method Tail(write: bool, rd: nat, rc: Reg, rv: Reg, eff: Eff)
      modifies this
      ensures code == old(code) + TailCode(write, rd, rc, rv, eff)
    {
      if write { Block([StoreGreg(R1, rd)]); }
      SetFlags(rc, rv, eff);
      hide SetFlagsCode;
    }

    method SubBlock(eff: Eff)
      modifies this
      ensures code == old(code) + AddSubOps(true, eff)
    {
      if eff == ToV { Block([Bin(MOV, R1, R3)]); }
      if eff.HasC() { Block([Test(CMPHS, R2, R1), Un(MOVT, R4)]); }
      Block([Bin(SUB, R2, R1)]);
      if eff == ToV { Block([Bin(SUBV, R2, R3), Un(MOVT, R5)]); }
    }
    method AddBlock(eff: Eff)
      modifies this
      ensures code == old(code) + AddSubOps(false, eff)
    {
      if eff == ToV { Block([Bin(MOV, R1, R3)]); }
      if eff.HasC() { Block([SetT(false), Bin(ADDC, R2, R1), Un(MOVT, R4)]); } else { Block([Bin(ADD, R2, R1)]); }
      if eff == ToV { Block([Bin(ADDV, R2, R3), Un(MOVT, R5)]); }
    }

    /** sh4g_dp_addsub. */
    method AddSub(isSub: bool, rd: nat, write: bool, live: Live)
      modifies this
      ensures code == old(code) + AddSubCode(isSub, rd, write, live)
    {
      hide TailCode, AddSubOps;
      var eff := FlagsRound(live);
      if isSub { SubBlock(eff); } else { AddBlock(eff); }
      Tail(write, rd, R4, R5, eff);
    }

    /** sh4g_dp_carry. */
    method Carry(isSub: bool, rd: nat, live: Live)
      modifies this
      ensures code == old(code) + CarryCode(isSub, rd, live)
    {
      hide TailCode, CarryMain, CarryOut, CarryV;
      var eff := FlagsRound(live);
      if eff == ToV { Block([Bin(MOV, R1, R6)]); }
      Block(CarryMain(isSub));
      if eff.HasC() { Block(CarryOut(isSub)); }
      if eff == ToV { Block(CarryV(isSub)); }
      Tail(true, rd, R4, R5, eff);
    }

    /** The rotate arm: a zero count skips the rotation. */
    method Rotate(body: seq<Op>)
      modifies this
      ensures code == old(code) + ([AndI(0x1F), Test(TST, R0, R0)] + SkipIfT(body))
    {
      Block([AndI(0x1F), Test(TST, R0, R0)]);
      var whole := BtPlaceholder();
      Block(body);
      PatchCond(whole);
    }

    /** Two arms: BT to `taken`, BRA over it at the end of `other`. */
    method Arms(taken: seq<Op>, other: seq<Op>)
      modifies this
      ensures code == old(code) + Branches(taken, other)
    {
      var big := BtPlaceholder();
      Block(other);
      var skip := BraPlaceholder();
      PatchCond(big);
      Block(taken);
      PatchBra(skip);
    }

    /** sh4g_arm_shift_reg_op2_noflags. */
    method ShiftReg(kind: nat, rm: nat, rs: nat)
      modifies this
      ensures code == old(code) + ShiftRegCode(kind, rm, rs)
    {
      hide RegPrologue, RorBody, Over32, SmallOps, BigOps, Branches, SkipIfT;
      Block(RegPrologue(rm, rs, R2));
      var zero := BtPlaceholder();
      ghost var body := code;
      if kind == 3 { Rotate(RorBody()); } else { Block(Over32()); Arms(BigOps(kind), SmallOps(kind)); }
      assert code == body + RegBody(kind);
      PatchCond(zero);
      Patched(old(code) + RegPrologue(rm, rs, R2), RegBody(kind));
    }

    // ---- opcodes -------------------------------------------------------------

    /** sh4g_shift_imm. */
    method ShiftImm(kind: nat, rd: nat, rs: nat, imm5: nat, live: Live)
      modifies this
      ensures code == old(code) + ShiftImmCode(kind, rd, rs, imm5, live)
    {
      hide ThumbCarryOps, ThumbShiftOps, TailCode, FlagsNzc;
      var wantC := live.c && !(kind == 0 && imm5 == 0);
      Block([LoadGreg(rs, R1)]);
      if wantC { Block(ThumbCarryOps(kind, imm5)); }
      Block(ThumbShiftOps(kind, imm5));
      Tail(true, rd, R4, R4, FlagsNzc(live, wantC));
    }

    /** The nonzero-amount arm of sh4g_thumb_shift_reg_native. */
    method ThumbRegArm(kind: nat, wantC: bool)
      modifies this
      ensures code == old(code) + ThumbRegBody(kind, wantC)
    {
      hide RorRegBody, TopCarry, Over32, BigRegOps, SmallCarry, SmallRegOps, Branches, SkipIfT;
      if kind == 3 {
        Rotate(RorRegBody());
        Block(TopCarry(wantC));
      } else {
        Block(Over32());
        Arms(BigRegOps(kind, wantC), (if wantC then SmallCarry(kind) else []) + SmallRegOps(kind));
      }
    }

    /** sh4g_thumb_shift_reg_native. */
    method ThumbShiftReg(kind: nat, rd: nat, rs: nat, live: Live)
      modifies this
      ensures code == old(code) + ThumbShiftRegCode(kind, rd, rs, live)
    {
      hide RegPrologue, ThumbRegBody, TailCode, SetFlagsCode, FlagsNzc, FlagsRound, NzOnly;
      Block(RegPrologue(rd, rs, R1));
      var zero := BtPlaceholder();
      ThumbRegArm(kind, live.c);
      Tail(true, rd, R4, R4, FlagsNzc(live, live.c));
      var end := BraPlaceholder();
      PatchCond(zero);
      SetFlags(R4, R4, FlagsRound(NzOnly(live)));
      PatchBra(end);
      PatchedArms(old(code) + RegPrologue(rd, rs, R1), SetFlagsCode(R4, R4, FlagsRound(NzOnly(live))),
                  ThumbRegBody(kind, live.c) + TailCode(true, rd, R4, R4, FlagsNzc(live, live.c)));
    }

    /** sh4g_cond_to_T. */
    method CondToT(cond: nat)
      requires cond < 16
      modifies this
      ensures code == old(code) + CondCode(cond)
      ensures TestsCond(code[|old(code)|..], cond)
    {
      CondTests(cond);
      if cond == 14 { Block([SetT(true)]); return; }
      if cond == 15 { Block([SetT(false)]); return; }
      if cond < 8 {
        Block([Bin(MOV, R8, R0), MovI(0 - FlagPos(cond), R3), Bin(SHLD, R3, R0), AndI(1),
            CmpEqI(if cond % 2 == 0 then 1 else 0)]);
        return;
      }
      hide Compound, ReadSign;
      Block([Bin(MOV, R8, R1)]);
      Block(Compound(cond));
      Block([ReadSign(cond)]);
    }

    /** sh4g_arm_multiply_native: false leaves the opcode to the C helper. */
    method Mul(opcode: Word, live: Live) returns (ok: bool)
      modifies this
      ensures ok == MulNative(opcode, live).Some?
      ensures code == old(code) + (if ok then MulNative(opcode, live).value else [])
      ensures ok ==> ActsAsMul(code[|old(code)|..], opcode, live)
    {
      if MulNative(opcode, live).Some? { MulActs(opcode, live); }
      var rd, rn, rs, rm := (opcode / 0x1_0000) % 16, (opcode / 0x1000) % 16, (opcode / 256) % 16, opcode % 16;
      var acc, s := (opcode / 0x20_0000) % 2 == 1, (opcode / 0x10_0000) % 2 == 1;
      hide MulCode;
      if rd == 15 || rm == 15 || rs == 15 || (acc && rn == 15) { return false; }
      MulBody(rd, rn, rs, rm, acc, s, live);
      return true;
    }
    method MulBody(rd: nat, rn: nat, rs: nat, rm: nat, acc: bool, s: bool, live: Live)
      modifies this
      ensures code == old(code) + MulCode(rd, rn, rs, rm, acc, s, live)
    {
      hide MulFront, TailCode, FlagsRound, NzOnly;
      Block(MulFront(rm, rs));
      if acc { Block([LoadGreg(rn, R2), Bin(ADD, R2, R1)]); }
      Tail(true, rd, R4, R4, if s then FlagsRound(NzOnly(live)) else None0);
    }

    /** sh4g_arm_multiply_long_native. */
    method MulLong(opcode: Word, live: Live) returns (ok: bool)
      modifies this
      ensures ok == MulLongNative(opcode, live).Some?
      ensures code == old(code) + (if ok then MulLongNative(opcode, live).value else [])
      ensures ok ==> ActsAsMulLong(code[|old(code)|..], opcode, live)
    {
      if MulLongNative(opcode, live).Some? { MulLongActs(opcode, live); }
      var hi, lo, rs, rm := (opcode / 0x1_0000) % 16, (opcode / 0x1000) % 16, (opcode / 256) % 16, opcode % 16;
      var signed, acc, s := (opcode / 0x40_0000) % 2 == 1, (opcode / 0x20_0000) % 2 == 1, (opcode / 0x10_0000) % 2 == 1;
      hide LongCode;
      if hi == 15 || lo == 15 || rm == 15 || rs == 15 || hi == lo { return false; }
      LongBody(hi, lo, rs, rm, signed, acc, s && (live.n || live.z));
      return true;
    }
    method LongBody(hi: nat, lo: nat, rs: nat, rm: nat, signed: bool, acc: bool, flags: bool)
      modifies this
      ensures code == old(code) + LongCode(hi, lo, rs, rm, signed, acc, flags)
    {
      hide LongFront, LongAcc, Nz64A, Nz64B;
      Block(LongFront(rm, rs, signed));
      if acc { Block(LongAcc(lo, hi)); }
      Block([StoreGreg(R1, lo), StoreGreg(R2, hi)]);
      if flags { Block(Nz64A()); Block(Nz64B()); }
    }

    /** Two operand loads, then the sum and its flags. */
    method LoadsAddSub(x: Op, y: Op, isSub: bool, rd: nat, write: bool, live: Live)
      modifies this
      ensures code == old(code) + ([x, y] + AddSubCode(isSub, rd, write, live))
    { hide AddSubCode; Block([x, y]); AddSub(isSub, rd, write, live); }

    /** Format 4 of sh4g_thumb_dp_native; false when the C helper is left to run. */
    method ThumbAluOp(alu: nat, rd: nat, rs: nat, fm: Live) returns (ok: bool)
      requires alu < 16
      modifies this
      ensures ok == AluCode(alu, rd, rs, fm).Some?
      ensures code == old(code) + (if ok then AluCode(alu, rd, rs, fm).value.code else [])
    {
      hide AddSubCode, CarryCode, LogicOps, TailCode, FlagsRound, NzOnly, LoadGreg, NoFlags;
      ok := true;
      if alu == 5 || alu == 6 { Block([LoadGreg(rd, R1), LoadGreg(rs, R2)]); Carry(alu == 6, rd, fm); }
      else if 9 <= alu <= 11 {
        if alu != 9 && fm == NoFlags() { return; }
        LoadsAddSub(if alu == 9 then MovI(0, R1) else LoadGreg(rd, R1), LoadGreg(rs, R2), alu != 11, rd, alu == 9, fm);
      } else if ThumbLogic(alu) {
        if alu == 8 && fm == NoFlags() { return; }
        if alu == 15 { Block([LoadGreg(rs, R2)]); } else { Block([LoadGreg(rd, R1), LoadGreg(rs, R2)]); }
        Block(LogicOps(alu));
        Tail(alu != 8, rd, R4, R4, FlagsRound(NzOnly(fm)));
      } else { ok := false; }
    }

    /** Format 5; `exits` when the opcode leaves through a PC write. */
    method ThumbHighOp(op: nat, rd: nat, rs: nat, pc: Word, fm: Live) returns (ok: bool, exits: bool)
      modifies this
      ensures ok == HighCode(op, rd, rs, pc, fm).Some? && (ok ==> exits == HighCode(op, rd, rs, pc, fm).value.exits)
      ensures code == old(code) + (if ok then HighCode(op, rd, rs, pc, fm).value.code else [])
    {
      hide AddSubCode, LoadGreg, SourceOp, JumpTail, NoFlags;
      ok, exits := true, false;
      if op > 2 { return false, false; }
      if op == 1 {
        if fm == NoFlags() { return; }
        LoadsAddSub(SourceOp(rd, pc, R1), SourceOp(rs, pc, R2), true, 0, false, fm);
      } else if rd == 15 {
        if op == 0 {
          Block([Const(AddW(pc, 4), R0), SourceOp(rs, pc, R2), Bin(ADD, R2, R0)]);
        } else {
          Block([SourceOp(rs, pc, R0)]);
        }
        Block(JumpTail());
        exits := true;
      } else if op == 0 {
        LoadsAddSub(LoadGreg(rd, R1), SourceOp(rs, pc, R2), false, rd, true, NoFlags());
      } else {
        Block([SourceOp(rs, pc, R1), StoreGreg(R1, rd)]);
      }
    }

    /** sh4g_thumb_dp_native, cycle debit aside. */
    method ThumbDp(opcode: Word, pc: Word, fm: Live) returns (ok: bool, exits: bool)
      modifies this
      ensures ok == ThumbDpNative(opcode, pc, fm).Some? && (ok ==> exits == ThumbDpNative(opcode, pc, fm).value.exits)
      ensures code == old(code) + (if ok then ThumbDpNative(opcode, pc, fm).value.code else [])
      ensures ok ==> ActsAsThumbDp(Emitted(code[|old(code)|..], exits), opcode, pc, fm)
    {
      if ThumbDpNative(opcode, pc, fm).Some? { ThumbDpActs(opcode, pc, fm); }
      ok, exits := ThumbDpEmit(opcode, pc, fm);
    }
    method ThumbDpEmit(opcode: Word, pc: Word, fm: Live) returns (ok: bool, exits: bool)
      modifies this
      ensures ok == ThumbDpNative(opcode, pc, fm).Some? && (ok ==> exits == ThumbDpNative(opcode, pc, fm).value.exits)
      ensures code == old(code) + (if ok then ThumbDpNative(opcode, pc, fm).value.code else [])
    {
      hide AddSubCode, TailCode, FlagsRound, NzOnly, LoadGreg, NoFlags, AluCode, HighCode;
      var hi := (opcode / 256) % 256;
      ok, exits := true, false;
      if opcode == 0x46C0 { return; }
      if 0x20 <= hi <= 0x27 {
        Block([Const(opcode % 256, R1)]);
        Tail(true, (opcode / 256) % 8, R4, R4, FlagsRound(NzOnly(fm)));
      } else if 0x28 <= hi <= 0x3F {
        var sub, rd := (opcode / 2048) % 4, (opcode / 256) % 8;
        if sub == 1 && fm == NoFlags() { return; }
        LoadsAddSub(LoadGreg(rd, R1), Const(opcode % 256, R2), sub != 2, rd, sub != 1, fm);
      } else if 0x18 <= hi <= 0x1F {
        var rd, rn, arg := opcode % 8, (opcode / 8) % 8, (opcode / 64) % 8;
        var isSub, isImm := (opcode / 512) % 2 == 1, (opcode / 1024) % 2 == 1;
        LoadsAddSub(LoadGreg(rn, R1), if isImm then Const(arg, R2) else LoadGreg(arg, R2), isSub, rd, true, fm);
      } else if 0x40 <= hi <= 0x43 {
        ok := ThumbAluOp((opcode / 64) % 16, opcode % 8, (opcode / 8) % 8, fm);
        AluStays((opcode / 64) % 16, opcode % 8, (opcode / 8) % 8, fm);
      } else if 0x44 <= hi <= 0x46 {
        ok, exits := ThumbHighOp((opcode / 256) % 4, opcode % 8 + (if (opcode / 128) % 2 == 1 then 8 else 0),
            (opcode / 8) % 16, pc, fm);
      } else { ok := false; }
    }

    method Operand(x: Operand, wantCarry: bool, pc: Word)
      requires Fits(x) && (wantCarry && x.ByImm? ==> x.kind < 3)
      modifies this
      ensures code == old(code) + OperandCode(x, wantCarry, pc)
    {
      hide ShiftOps, CarryBitOps, ShiftRegCode;
      match x
      case Imm(v, _) => Block([Const(v, R2)]);
      case Plain(rm) => Block([if rm == 15 then Const(AddW(pc, 8), R2) else LoadGreg(rm, R2)]);
      case ByImm(kind, amount, rm) =>
        if wantCarry { Block([LoadGreg(rm, R6), Bin(MOV, R6, R2)]); } else { Block([LoadGreg(rm, R2)]); }
        Block(ShiftOps(kind, amount));
        if wantCarry { Block(CarryBitOps(kind, amount)); }
      case ByReg(kind, rm, rs) => ShiftReg(kind, rm, rs);
    }

    method Logic(op: nat, rd: nat, x: Operand, fm: Live)
      modifies this
      ensures code == old(code) + (ComputeCode(op) + LogicTail(op, x, rd, fm))
    {
      hide ComputeCode, SetFlagsCode, FlagsRound, NzOnly, Tests;
      Block(ComputeCode(op));
      if !Tests(op) { Block([StoreGreg(R1, rd)]); }
      if HaveC(x, fm) {
        if x.Imm? { Block([MovI(Bit(x.carry.value), R6)]); }
        SetFlags(R6, R6, ToC);
      } else {
        SetFlags(R4, R4, FlagsRound(NzOnly(fm)));
      }
    }

    method Reverse(op: nat, rd: nat, fm: Live)
      modifies this
      ensures code == old(code) + ReverseCode(op, rd, fm)
    {
      hide AddSubCode, CarryCode;
      if op == 3 || op == 7 { Block(Swap()); }
      if op == 3 { AddSub(true, rd, true, fm); } else { Carry(op != 5, rd, fm); }
    }

    /** sh4g_arm_dp_native: false emits nothing and leaves the opcode to the C helper. */
    method ArmDp(opcode: Word, pc: Word, live: Live) returns (ok: bool)
      modifies this
      ensures ok == ArmDpNative(opcode, pc, live).Some?
      ensures code == old(code) + (if ok then ArmDpNative(opcode, pc, live).value else [])
      ensures ok ==> ActsAsArmDp(code[|old(code)|..], opcode, pc, live)
    {
      if ArmDpNative(opcode, pc, live).Some? { ArmDpActs(opcode, pc, live); }
      ok := ArmDpEmit(opcode, pc, live);
    }
    method ArmDpEmit(opcode: Word, pc: Word, live: Live) returns (ok: bool)
      modifies this
      ensures ok == ArmDpNative(opcode, pc, live).Some?
      ensures code == old(code) + (if ok then ArmDpNative(opcode, pc, live).value else [])
    {
      var op, s := (opcode / 0x20_0000) % 16, (opcode / 0x10_0000) % 2 == 1;
      var rn, rd := (opcode / 0x1_0000) % 16, (opcode / 0x1000) % 16;
      var fm := if s then live else NoFlags();
      var x := DecodeOperand(opcode, fm);
      if rd == 15 || x.None? { return false; }
      DecodeFits(opcode, fm);
      hide DecodeOperand, ArmDpCode, Fits, NoFlags, Logical;
      DpBody(op, rn, rd, x.value, pc, fm);
      return true;
    }

    method DpBody(op: nat, rn: nat, rd: nat, x: Operand, pc: Word, fm: Live)
      requires op < 16 && Fits(x) && (fm.c && Logical(op) && x.ByImm? ==> x.kind < 3)
      modifies this
      ensures code == old(code) + ArmDpCode(op, rn, rd, x, pc, fm)
    {
      hide RnCode, OperandCode, ComputeCode, LogicTail, ReverseCode, AddSubCode, Fits, NoFlags, Logical, Tests, Unary;
      if Tests(op) && fm == NoFlags() { return; }
      if Logical(op) { DpLogic(op, rn, rd, x, pc, fm); } else { DpArith(op, rn, rd, x, pc, fm); }
    }

    method DpLogic(op: nat, rn: nat, rd: nat, x: Operand, pc: Word, fm: Live)
      requires Fits(x) && (fm.c && x.ByImm? ==> x.kind < 3)
      modifies this
      ensures code == old(code) + ((if Unary(op) then [] else RnCode(rn, pc))
        + (OperandCode(x, fm.c, pc) + (ComputeCode(op) + LogicTail(op, x, rd, fm))))
    {
      hide *;
      if !Unary(op) { Block(RnCode(rn, pc)); }
      Operand(x, fm.c, pc);
      Logic(op, rd, x, fm);
    }

    method DpArith(op: nat, rn: nat, rd: nat, x: Operand, pc: Word, fm: Live)
      requires Fits(x)
      modifies this
      ensures code == old(code) + (RnCode(rn, pc) + (OperandCode(x, false, pc)
        + if op == 3 || (5 <= op <= 7) then ReverseCode(op, rd, fm)
          else AddSubCode(op == 2 || op == 10, rd, op == 2 || op == 4, fm)))
    {
      hide *;
      Block(RnCode(rn, pc));
      Operand(x, false, pc);
      if op == 3 || 5 <= op <= 7 { Reverse(op, rd, fm); }
      else { AddSub(op == 2 || op == 10, rd, op == 2 || op == 4, fm); }
    }
  }

  lemma ArmDpActs(opcode: Word, pc: Word, live: Live)
    requires ArmDpNative(opcode, pc, live).Some?
    ensures ActsAsArmDp(ArmDpNative(opcode, pc, live).value, opcode, pc, live)
  {
    hide Exec, AgreesOut, View, Oracle.ArmDp, ArmDpNative;
    forall h: Host
      ensures var o := Exec(ArmDpNative(opcode, pc, live).value, h);
        o.Some? && AgreesOut(live, View(h), View(o.value), Oracle.ArmDp(opcode, pc, View(h)))
    { ArmDpCorrect(opcode, pc, live, h); }
  }
  lemma ThumbDpActs(opcode: Word, pc: Word, live: Live)
    requires ThumbDpNative(opcode, pc, live).Some?
    ensures ActsAsThumbDp(ThumbDpNative(opcode, pc, live).value, opcode, pc, live)
  {
    hide Correct, View, ThumbDp, ThumbDpNative;
    forall h: Host
      ensures Correct(live, h, ThumbDpNative(opcode, pc, live).value, ThumbDp(opcode, pc, View(h)))
    { ThumbDpCorrect(opcode, pc, live, h); }
  }
  lemma MulActs(opcode: Word, live: Live)
    requires MulNative(opcode, live).Some?
    ensures ActsAsMul(MulNative(opcode, live).value, opcode, live)
  {
    hide Exec, Agrees, View, ArmMultiply, MulNative;
    forall h: Host
      ensures var o := Exec(MulNative(opcode, live).value, h);
        o.Some? && Agrees(live, View(h), View(o.value), ArmMultiply(opcode, View(h)))
    { MulCorrect(opcode, live, h); }
  }
  lemma MulLongActs(opcode: Word, live: Live)
    requires MulLongNative(opcode, live).Some?
    ensures ActsAsMulLong(MulLongNative(opcode, live).value, opcode, live)
  {
    hide Exec, Agrees, View, ArmMultiplyLong, MulLongNative;
    forall h: Host
      ensures var o := Exec(MulLongNative(opcode, live).value, h);
        o.Some? && Agrees(live, View(h), View(o.value), ArmMultiplyLong(opcode, View(h)))
    { MulLongCorrect(opcode, live, h); }
  }
  lemma CondTests(cond: nat)
    requires cond < 16
    ensures TestsCond(CondCode(cond), cond)
  {
    hide Exec, Run, CondCode, Passes, SameGuest;
    forall h: Host
      ensures Exec(CondCode(cond), h).Some?
        && SameGuest(h, Exec(CondCode(cond), h).value) && Exec(CondCode(cond), h).value.t == Passes(cond, h.r8)
    { CondCorrect(cond, h); ExecStraight(CondCode(cond), h); }
  }
  function RotationCode(rc: Reg, rv: Reg, eff: Eff): seq<Op> {
    (if eff == ToV then RotIn(rv) else []) + (if eff.HasC() then RotIn(rc) else [])
    + (if eff.HasZ() then RotZ() else []) + RotN()
  }
  lemma AluStays(alu: nat, rd: nat, rs: nat, fm: Live)
    requires alu < 16
    ensures AluCode(alu, rd, rs, fm).Some? ==> !AluCode(alu, rd, rs, fm).value.exits
  { hide AddSubCode, CarryCode, LogicOps, TailCode; }
  lemma FlagParts(pre: seq<Op>, rc: Reg, rv: Reg, eff: Eff)
    requires eff != None0
    ensures pre + [Bin(MOV, R8, R2)] + DropTop(eff) + RotationCode(rc, rv, eff) == pre + SetFlagsCode(rc, rv, eff)
  {
    hide DropTop, RotIn, RotZ, RotN;
    Regroup(pre, [Bin(MOV, R8, R2)], DropTop(eff), if eff == ToV then RotIn(rv) else [],
        if eff.HasC() then RotIn(rc) else [],
            if eff.HasZ() then RotZ() else [], RotN());
  }
  lemma Regroup(p: seq<Op>, a: seq<Op>, b: seq<Op>, c: seq<Op>, d: seq<Op>, e: seq<Op>, f: seq<Op>)
    ensures p + a + b + (c + d + e + f) == p + (a + b + c + d + e + f)
  {
    Two(p, a, b); Two(p, a + b, c); Two(p + (a + b), c, d);
    var x := p + a + b;
    Two(x, c, d); Two(x, c + d, e); Two(x, c + d + e, f);
    var y := a + b;
    Two(p, y + c, d); Two(p, y + c + d, e); Two(p, y + c + d + e, f);
  }
  lemma Two(p: seq<Op>, a: seq<Op>, b: seq<Op>) ensures p + a + b == p + (a + b) {}
  lemma Patched(pre: seq<Op>, body: seq<Op>)
    ensures (pre + [Bt(0)] + body)[|pre| := Bt(|body| - 1)] == pre + SkipIfT(body)
  {}
  lemma PatchedArms(pre: seq<Op>, taken: seq<Op>, other: seq<Op>)
    ensures (pre + [Bt(|other| + 1)] + other + [Bra(0), Nop] + taken)[|pre| + 1 + |other| := Bra(|taken|)]
      == pre + Branches(taken, other)
  {}
}
