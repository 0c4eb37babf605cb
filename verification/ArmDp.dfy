/** Native emission of ARM data-processing and its correctness against the C helper. */
module ArmDp {
  import opened Words
  import opened Guest
  import opened Sh4
  import opened Alu
  import opened Shifts

  /** Second operand of an opcode the emitter accepts. */
  datatype Operand =
    | Imm(value: Word, carry: Option<bool>)
    | Plain(rm: nat)
    | ByImm(kind: nat, amount: nat, rm: nat)
    | ByReg(kind: nat, rm: nat, rs: nat)

  predicate Logical(op: nat) { op < 2 || op == 8 || op == 9 || op >= 12 }
  predicate Tests(op: nat) { 8 <= op < 12 }
  predicate Unary(op: nat) { op == 13 || op == 15 }

  function NoFlags(): Live { Live(false, false, false, false) }

  /** Operand decoding of sh4g_arm_dp_native; None falls back to the C helper. */
  function DecodeOperand(opcode: Word, fm: Live): Option<Operand> {
    var op := (opcode / 0x20_0000) % 16;
    var s := (opcode / 0x10_0000) % 2 == 1;
    if (opcode / 0x0200_0000) % 2 == 1 then
      var imm := opcode % 256;
      var rot := ((opcode / 256) % 16) * 2;
      var v := if rot == 0 then imm else OrW(Lsr(imm, rot), Lsl(imm, 32 - rot));
      Some(Imm(v, if rot == 0 then None else Some(BitOf(v, 31))))
    else
      var rm := opcode % 16;
      var field := (opcode / 16) % 256;
      if field == 0 then Some(Plain(rm))
      else if rm == 15 then None
      else
        var kind := (opcode / 32) % 4;
        if (opcode / 16) % 2 == 1 then
          var rs := (opcode / 256) % 16;
          if s || !Unary(op) || rs == 15 then None else Some(ByReg(kind, rm, rs))
        else
          var amount := (opcode / 128) % 32;
          if kind == 3 && (amount == 0 || (fm.c && Logical(op))) then None
          else Some(ByImm(kind, amount, rm))
  }

  predicate Fits(x: Operand) {
    match x
    case Imm(_, _) => true
    case Plain(rm) => rm < 16
    case ByImm(kind, amount, rm) => Accepted(kind, amount) && rm < 15
    case ByReg(kind, rm, rs) => kind < 4 && rm < 15 && rs < 15
  }

  lemma DecodeFits(opcode: Word, fm: Live)
    requires DecodeOperand(opcode, fm).Some?
    ensures Fits(DecodeOperand(opcode, fm).value)
  {
    hide OrW, Lsl, Lsr, BitOf;
    FieldZero(opcode);
  }
  /** Bits 4..11 are clear only for LSL #0. */
  lemma FieldZero(opcode: Word)
    ensures (opcode / 16) % 2 == 0 && (opcode / 32) % 4 == 0 && (opcode / 128) % 32 == 0 ==> (opcode / 16) % 256 == 0
    ensures (opcode / 16) % 256 == 0 ==> (opcode / 16) % 2 == 0 && (opcode / 32) % 4 == 0 && (opcode / 128) % 32 == 0
  {
    DivDiv(opcode, 16, 2); DivDiv(opcode, 16, 8);
    FieldSplit(opcode / 16);
  }
  lemma FieldSplit(y: nat)
    ensures y % 256 == y % 2 + 2 * ((y / 2) % 4) + 8 * ((y / 8) % 32)
  {
    ModSplit(y, 128); ModSplit(y / 2, 64); ModSplit(y / 4, 32);
    ModSplit(y / 2, 2);
    DivDiv(y, 2, 2); DivDiv(y, 4, 2);
  }

  /** The value and carry arm_shifter_operand gives for a decoded operand. */
  function Operand2(x: Operand, pc: Word, g: Guest): Shifted
    requires Fits(x)
  {
    var c := C(g.cpsr);
    match x
    case Imm(v, carry) => Shifted(v, if carry.Some? then carry.value else c)
    case Plain(rm) => Shifted(if rm == 15 then AddW(pc, 8) else g.r[rm], c)
    case ByImm(kind, amount, rm) => Shift(kind, amount, g.r[rm], c)
    case ByReg(kind, rm, rs) => ShiftByReg(kind, g.r[rs] % 256, g.r[rm], c)
  }

  lemma DecodeCorrect(opcode: Word, pc: Word, fm: Live, g: Guest)
    requires DecodeOperand(opcode, fm).Some?
    ensures Fits(DecodeOperand(opcode, fm).value)
    ensures ShifterOperand(opcode, pc, g) == Operand2(DecodeOperand(opcode, fm).value, pc, g)
  {
    DecodeFits(opcode, fm); FieldZero(opcode);
    ShiftZero(g.r[opcode % 16], C(g.cpsr)); ShiftZero(AddW(pc, 8), C(g.cpsr));
    hide OrW, Lsl, Lsr, BitOf, Shift, C;
  }
  lemma ShiftZero(v: Word, c: bool) ensures Shift(0, 0, v, c) == Shifted(v, c) {}

  // ---- emitted code ----------------------------------------------------------

  function RnCode(rn: nat, pc: Word): seq<Op> {
    [if rn == 15 then Const(AddW(pc, 8), R1) else LoadGreg(rn, R1)]
  }

  function ShiftFull(kind: nat, amount: nat, rm: nat): seq<Op>
    requires kind < 3 && amount < 32
  {
    [LoadGreg(rm, R6), Bin(MOV, R6, R2)] + (ShiftOps(kind, amount) + CarryBitOps(kind, amount))
  }

  function OperandCode(x: Operand, wantCarry: bool, pc: Word): seq<Op>
    requires Fits(x) && (wantCarry && x.ByImm? ==> x.kind < 3)
  {
    match x
    case Imm(v, _) => [Const(v, R2)]
    case Plain(rm) => [if rm == 15 then Const(AddW(pc, 8), R2) else LoadGreg(rm, R2)]
    case ByImm(kind, amount, rm) =>
      if wantCarry then ShiftFull(kind, amount, rm) else [LoadGreg(rm, R2)] + ShiftOps(kind, amount)
    case ByReg(kind, rm, rs) => ShiftRegCode(kind, rm, rs)
  }

  /** sh4g_dp_compute for the logical opcodes. */
  function ComputeCode(op: nat): seq<Op> {
    if op == 0 || op == 8 then [Bin(AND, R2, R1)]
    else if op == 1 || op == 9 then [Bin(XOR, R2, R1)]
    else if op == 12 then [Bin(OR, R2, R1)]
    else if op == 13 then [Bin(MOV, R2, R1)]
    else if op == 14 then [Bin(NOT, R2, R2), Bin(AND, R2, R1)]
    else [Bin(NOT, R2, R1)]
  }

  function HaveC(x: Operand, fm: Live): bool {
    fm.c && (x.ByImm? || x.ByReg? || (x.Imm? && x.carry.Some?))
  }
  function LogicTail(op: nat, x: Operand, rd: nat, fm: Live): seq<Op> {
    (if Tests(op) then [] else [StoreGreg(R1, rd)])
    + (if HaveC(x, fm) then
         (if x.Imm? then [MovI(Bit(x.carry.value), R6)] else []) + SetFlagsCode(R6, R6, ToC)
       else SetFlagsCode(R4, R4, FlagsRound(NzOnly(fm))))
  }

  function Swap(): seq<Op> { [Bin(MOV, R1, R0), Bin(MOV, R2, R1), Bin(MOV, R0, R2)] }

  /** RSB, ADC, SBC and RSC. */
  function ReverseCode(op: nat, rd: nat, fm: Live): seq<Op> {
    (if op == 3 || op == 7 then Swap() else [])
    + (if op == 3 then AddSubCode(true, rd, true, fm) else CarryCode(op != 5, rd, fm))
  }

  /** Code for one accepted opcode, by ALU family. */
  function ArmDpCode(op: nat, rn: nat, rd: nat, x: Operand, pc: Word, fm: Live): seq<Op>
    requires op < 16 && Fits(x) && (fm.c && Logical(op) && x.ByImm? ==> x.kind < 3)
  {
    if Tests(op) && fm == NoFlags() then []
    else if Logical(op) then
      (if Unary(op) then [] else RnCode(rn, pc))
      + (OperandCode(x, fm.c, pc) + (ComputeCode(op) + LogicTail(op, x, rd, fm)))
    else if op == 3 || (5 <= op <= 7) then
      RnCode(rn, pc) + (OperandCode(x, false, pc) + ReverseCode(op, rd, fm))
    else
      RnCode(rn, pc) + (OperandCode(x, false, pc)
      + AddSubCode(op == 2 || op == 10, rd, op == 2 || op == 4, fm))
  }

  /** sh4g_arm_dp_native: the emitted code, or None to call the C helper. */
  function ArmDpNative(opcode: Word, pc: Word, live: Live): Option<seq<Op>> {
    var op := (opcode / 0x20_0000) % 16;
    var s := (opcode / 0x10_0000) % 2 == 1;
    var rn := (opcode / 0x1_0000) % 16;
    var rd := (opcode / 0x1000) % 16;
    var fm := if s then live else NoFlags();
    var x := DecodeOperand(opcode, fm);
    if rd == 15 || x.None? then None
    else
      DecodeFits(opcode, fm);
      Some(ArmDpCode(op, rn, rd, x.value, pc, fm))
  }

  // ---- operand stage ---------------------------------------------------------

  lemma RnRun(rn: nat, pc: Word, h: Host)
    requires rn < 16
    ensures Run(RnCode(rn, pc), h) == h.(r1 := if rn == 15 then AddW(pc, 8) else View(h).r[rn])
  {
    if rn == 15 { Run1(Const(AddW(pc, 8), R1), h); }
    else { LoadGregStep(rn, R1, h); hide LoadGreg; Run1(LoadGreg(rn, R1), h); }
  }

  predicate OperandReady(x: Operand, wantCarry: bool, pc: Word, h: Host, h': Host)
    requires Fits(x)
  {
    OperandDone(h, h') && h'.r2 == Operand2(x, pc, View(h)).value
    && (wantCarry && x.ByImm? ==> h'.r6 == Bit(Operand2(x, pc, View(h)).carry))
  }

  lemma OperandExec(x: Operand, wantCarry: bool, pc: Word, h: Host)
    requires Fits(x) && (wantCarry && x.ByImm? ==> x.kind < 3)
    ensures var o := Exec(OperandCode(x, wantCarry, pc), h);
      o.Some? && OperandReady(x, wantCarry, pc, h, o.value)
  {
    match x
    case Imm(v, _) => ExecOne(Const(v, R2), h);
    case Plain(rm) =>
      if rm == 15 { ExecOne(Const(AddW(pc, 8), R2), h); }
      else { ExecOne(LoadGreg(rm, R2), h); LoadGregStep(rm, R2, h); }
    case ByImm(kind, amount, rm) =>
      if wantCarry { FullExec(kind, amount, rm, h); } else { ImmExec(kind, amount, rm, h); }
    case ByReg(kind, rm, rs) => ShiftRegExec(kind, rm, rs, C(h.r8), h);
  }
  lemma ExecOne(op: Op, h: Host)
    requires !IsBranch(op)
    ensures Exec([op], h) == Some(Step(op, h))
  { hide Step; assert [op][1..] == []; }

  lemma ImmExec(kind: nat, amount: nat, rm: nat, h: Host)
    requires Accepted(kind, amount) && rm < 16
    ensures var o := Exec([LoadGreg(rm, R2)] + ShiftOps(kind, amount), h);
      o.Some? && OperandDone(h, o.value) && o.value.r2 == Shift(kind, amount, View(h).r[rm], C(h.r8)).value
  {
    StraightShift(kind, amount, rm);
    hide Run, Step, Exec, ShiftOps, LoadGreg, Shift;
    var a, b := LoadGreg(rm, R2), ShiftOps(kind, amount);
    assert Straight([a] + b);
    ExecStraight([a] + b, h);
    TailStore(a, b, h);
    LoadGregStep(rm, R2, h);
    ShiftOpsRun(kind, amount, C(h.r8), Step(a, h));
  }
  lemma StraightShift(kind: nat, amount: nat, rm: nat)
    requires kind < 4 && amount < 32
    ensures Straight(ShiftOps(kind, amount)) && !IsBranch(LoadGreg(rm, R2)) && !IsBranch(LoadGreg(rm, R6))
    ensures kind < 3 ==> Straight(CarryBitOps(kind, amount))
  {}

  lemma FullExec(kind: nat, amount: nat, rm: nat, h: Host)
    requires kind < 3 && Accepted(kind, amount) && rm < 16
    ensures var o, sh := Exec(ShiftFull(kind, amount, rm), h), Shift(kind, amount, View(h).r[rm], C(h.r8));
      o.Some? && OperandDone(h, o.value) && o.value.r2 == sh.value && o.value.r6 == Bit(sh.carry)
  {
    StraightShift(kind, amount, rm);
    FullPrologue(rm, h);
    hide Run, Step, Exec, ShiftOps, CarryBitOps, LoadGreg, Shift;
    var p := [LoadGreg(rm, R6), Bin(MOV, R6, R2)];
    var a, b := ShiftOps(kind, amount), CarryBitOps(kind, amount);
    assert Straight(p + (a + b));
    ExecStraight(p + (a + b), h);
    RunSplit(p, a + b, h);
    var h1 := Run(p, h);
    RunSplit(a, b, h1);
    ShiftOpsRun(kind, amount, C(h.r8), h1);
    CarryBitRun(kind, amount, C(h.r8), Run(a, h1));
  }
  lemma FullPrologue(rm: nat, h: Host)
    requires rm < 16
    ensures Run([LoadGreg(rm, R6), Bin(MOV, R6, R2)], h) == h.(r6 := View(h).r[rm], r2 := View(h).r[rm])
  {
    LoadGregStep(rm, R6, h);
    hide Run, LoadGreg;
    Run2(LoadGreg(rm, R6), Bin(MOV, R6, R2), h);
  }

  // ---- agreement with the oracle ----------------------------------------------

  /** Registers equal, untouched CPSR bits equal, live flags equal, and every
      dead flag either left alone or already right. */
  predicate Agrees(live: Live, old0: Guest, got: Guest, want: Guest) {
    got.r == want.r && Low(got.cpsr) == Low(want.cpsr) == Low(old0.cpsr)
    && (N(got.cpsr) == N(want.cpsr) || (!live.n && N(got.cpsr) == N(old0.cpsr)))
    && (Z(got.cpsr) == Z(want.cpsr) || (!live.z && Z(got.cpsr) == Z(old0.cpsr)))
    && (C(got.cpsr) == C(want.cpsr) || (!live.c && C(got.cpsr) == C(old0.cpsr)))
    && (V(got.cpsr) == V(want.cpsr) || (!live.v && V(got.cpsr) == V(old0.cpsr)))
  }

  predicate Covers(eff: Eff, live: Live) {
    (live.n ==> eff != None0) && (live.z ==> eff.HasZ()) && (live.c ==> eff.HasC()) && (live.v ==> eff == ToV)
  }
  lemma RoundCovers(live: Live) ensures Covers(FlagsRound(live), live) {}

  /** Committing a rounded mask agrees with committing all four flags. */
  lemma CommitAgrees(live: Live, eff: Eff, g: Guest, write: bool, rd: nat, res: Word, c: bool, v: bool, c': bool,
                     v': bool)
    requires rd < 16
    requires live.n ==> eff != None0
    requires live.z ==> eff.HasZ()
    requires if eff.HasC() then c' == c else live.c ==> c == C(g.cpsr)
    requires if eff == ToV then v' == v else live.v ==> v == V(g.cpsr)
    ensures Agrees(live, g, Commit(g, write, rd, eff, res, c', v'),
                   SetNzcv(if write then g.(r := g.r[rd := res]) else g, res, c, v))
  {
    NewCpsrFields(g.cpsr, eff, Neg31(res), res == 0, c', v');
    PackFields(Low(g.cpsr), Neg31(res), res == 0, c, v);
    hide Pack, NewCpsr, Low, N, Z, C, V, Neg31;
  }
  lemma NewCpsrFields(cpsr: Word, eff: Eff, n: bool, z: bool, c: bool, v: bool)
    ensures var w := NewCpsr(cpsr, eff, n, z, c, v);
      Low(w) == Low(cpsr) && N(w) == (if eff == None0 then N(cpsr) else n)
      && Z(w) == (if eff.HasZ() then z else Z(cpsr))
      && C(w) == (if eff.HasC() then c else C(cpsr))
      && V(w) == (if eff == ToV then v else V(cpsr))
  {
    PackFields(Low(cpsr), if eff == None0 then N(cpsr) else n, if eff.HasZ() then z else Z(cpsr),
         if eff.HasC() then c else C(cpsr), if eff == ToV then v else V(cpsr));
    hide Pack, Low, N, Z, C, V;
  }
  lemma CommitNothing(live: Live, g: Guest, write: bool, rd: nat, res: Word, c: bool, v: bool)
    requires rd < 16
    ensures Agrees(live, g, Commit(g, write, rd, None0, res, c, v), if write then g.(r := g.r[rd := res]) else g)
  { Unpack(g.cpsr); hide Pack, Low, N, Z, C, V; }

  // ---- the three ALU families ---------------------------------------------------

  function After(s: bool, g: Guest, rd: nat, alu: AluOut): Guest
    requires rd < 16
  {
    var g1 := if alu.writes then g.(r := g.r[rd := alu.res]) else g;
    if s then SetNzcv(g1, alu.res, alu.c, alu.v) else g1
  }

  lemma ArithAlu(op: nat, a: Word, b: Word, carry: bool, cpsr: Word)
    requires op in {2, 3, 4, 10, 11}
    ensures var alu, x, y := ArmAlu(op, a, b, carry, cpsr), if op == 3 then b else a, if op == 3 then a else b;
      var s := SumOf(op != 4 && op != 11, x, y);
      alu == AluOut(s.res, s.c, s.v, op < 8)
  {
    SubFacts(a, b); SubFacts(b, a); AddFacts(a, b);
    hide AddV, SubV, SumOf, AddW, SubW;
  }
  lemma SubFacts(a: Word, b: Word)
    ensures var s := SumOf(true, a, b);
      s.res == (a - b) % 0x1_0000_0000 && s.c == (a >= b) && s.v == SubV(a, b, (a - b) % 0x1_0000_0000)
  {
    SumFacts(a, b);
    OverflowSigns(a, b, SubW(a, b));
    hide AddV, SubV, SumOf, Neg31;
  }
  lemma AddFacts(a: Word, b: Word)
    ensures var s := SumOf(false, a, b);
      s.res == (a + b) % 0x1_0000_0000 && s.c == (a + b >= 0x1_0000_0000) && s.v == AddV(a, b, (a + b) % 0x1_0000_0000)
  {
    SumFacts(a, b);
    hide AddV, Neg31;
  }
  lemma CarryAlu(op: nat, a: Word, b: Word, carry: bool, cpsr: Word)
    requires op in {5, 6, 7}
    ensures var alu, x, y := ArmAlu(op, a, b, carry, cpsr), if op == 7 then b else a, if op == 7 then a else b;
      var s := CarrySum(op != 5, x, y, C(cpsr));
      alu == AluOut(s.res, s.c, s.v, true)
  {
    CarryOverflow(op != 5, a, b, C(cpsr)); CarryOverflow(op != 5, b, a, C(cpsr));
    hide AddV, SubV, C;
  }

  predicate Meets(live: Live, s: bool, g: Guest, rd: nat, alu: AluOut, o: Option<Host>)
    requires rd < 16
  { o.Some? && Agrees(live, g, View(o.value), After(s, g, rd, alu)) }

  /** ADD/SUB/CMP/CMN from R1 and R2. */
  lemma AddSubFinish(op: nat, rd: nat, live: Live, s: bool, carry: bool, h: Host)
    requires op in {2, 4, 10, 11} && rd < 16
    ensures var fm := if s then live else NoFlags();
      Meets(live, s, View(h), rd, ArmAlu(op, h.r1, h.r2, carry, h.r8),
            Exec(AddSubCode(op == 2 || op == 10, rd, op == 2 || op == 4, fm), h))
  {
    var fm := if s then live else NoFlags();
    var sub, write := op == 2 || op == 10, op == 2 || op == 4;
    ArithAlu(op, h.r1, h.r2, carry, h.r8);
    AddSubCorrect(sub, rd, write, fm, h);
    StraightAlu(sub, rd, write, fm);
    ExecStraight(AddSubCode(sub, rd, write, fm), h);
    var sum := SumOf(sub, h.r1, h.r2);
    RoundCovers(live);
    if s { CommitAgrees(live, FlagsRound(live), View(h), write, rd, sum.res, sum.c, sum.v, sum.c, sum.v); }
    else { CommitNothing(live, View(h), write, rd, sum.res, sum.c, sum.v); }
    hide Run, Exec, Step, AddSubCode, Agrees, Commit, SumOf, ArmAlu, SetNzcv;
  }
  lemma StraightAlu(sub: bool, rd: nat, write: bool, live: Live)
    ensures Straight(AddSubCode(sub, rd, write, live)) && Straight(CarryCode(sub, rd, live))
  {
    StraightFlags(R4, R5, FlagsRound(live));
    StraightAddSub(sub, FlagsRound(live)); StraightCarry(sub, FlagsRound(live));
    hide SetFlagsCode, AddSubOps, CarryOps;
  }
  lemma StraightFlags(rc: Reg, rv: Reg, eff: Eff)
    ensures Straight(SetFlagsCode(rc, rv, eff))
  {
    StraightRotations(rc, rv, eff);
    hide RotIn, RotZ, RotN, DropTop;
  }
  lemma StraightRotations(rc: Reg, rv: Reg, eff: Eff)
    ensures Straight(RotIn(rc)) && Straight(RotIn(rv)) && Straight(RotZ()) && Straight(RotN()) && Straight(DropTop(eff))
  {}
  lemma StraightAddSub(sub: bool, eff: Eff) ensures Straight(AddSubOps(sub, eff)) {}
  lemma StraightCarry(sub: bool, eff: Eff)
    ensures Straight(CarryOps(sub, eff))
  {
    assert Straight(CarryMain(sub)) && Straight(CarryOut(sub)) && Straight(CarryV(sub));
    hide CarryMain, CarryOut, CarryV;
  }

  lemma SwapRun(h: Host)
    ensures Run(Swap(), h) == h.(r0 := h.r1, r1 := h.r2, r2 := h.r1)
  { hide Run; Run3(Bin(MOV, R1, R0), Bin(MOV, R2, R1), Bin(MOV, R0, R2), h); }

  lemma CpsrOf(h: Host) ensures View(h).cpsr == h.r8 {}
  lemma SwapStage(swapped: bool, h: Host)
    ensures var swap: seq<Op> := if swapped then Swap() else []; var h' := Run(swap, h);
      Straight(swap) && View(h') == View(h) && h'.r1 == (if swapped then h.r2 else h.r1)
      && h'.r2 == (if swapped then h.r1 else h.r2)
  { hide Run; if swapped { SwapRun(h); } else { RunNil(h); } }
  /** RSB/ADC/SBC/RSC from R1 and R2. */
  lemma ReverseFinish(op: nat, rd: nat, live: Live, s: bool, carry: bool, h: Host)
    requires op in {3, 5, 6, 7} && rd < 16
    ensures var fm := if s then live else NoFlags();
      Meets(live, s, View(h), rd, ArmAlu(op, h.r1, h.r2, carry, h.r8), Exec(ReverseCode(op, rd, fm), h))
  {
    var fm := if s then live else NoFlags();
    var swap: seq<Op> := if op == 3 || op == 7 then Swap() else [];
    var body := if op == 3 then AddSubCode(true, rd, true, fm) else CarryCode(op != 5, rd, fm);
    hide Run, Exec, Step, AddSubCode, CarryCode, Agrees, Commit, SumOf, CarrySum, ArmAlu, SetNzcv, Swap, C, View,
         Straight;
    CpsrOf(h);
    var h1 := Run(swap, h);
    SwapStage(op == 3 || op == 7, h);
    CpsrOf(h1);
    StraightAlu(op != 5, rd, true, fm);
    ExecStraightThen(swap, body, h);
    ExecStraight(body, h1);
    RoundCovers(live);
    var sum;
    if op == 3 {
      ArithAlu(op, h.r1, h.r2, carry, h.r8);
      AddSubCorrect(true, rd, true, fm, h1);
      sum := SumOf(true, h1.r1, h1.r2);
    } else {
      CarryAlu(op, h.r1, h.r2, carry, h.r8);
      CarryCorrect(op != 5, rd, fm, h1);
      sum := CarrySum(op != 5, h1.r1, h1.r2, C(h.r8));
    }
    if s { CommitAgrees(live, FlagsRound(live), View(h), true, rd, sum.res, sum.c, sum.v, sum.c, sum.v); }
    else { CommitNothing(live, View(h), true, rd, sum.res, sum.c, sum.v); }
  }

  // ---- logical opcodes -----------------------------------------------------------

  lemma ComputeRun(op: nat, carry: bool, cpsr: Word, h: Host)
    requires op < 16 && Logical(op)
    ensures var h' := Run(ComputeCode(op), h);
      SameGuest(h, h') && h'.r6 == h.r6 && h'.r1 == ArmAlu(op, h.r1, h.r2, carry, cpsr).res
      && Straight(ComputeCode(op))
  {
    hide Run, AndW, OrW, XorW, NotW, AddV, SubV;
    if op == 0 || op == 8 { Run1(Bin(AND, R2, R1), h); }
    else if op == 1 || op == 9 { Run1(Bin(XOR, R2, R1), h); }
    else if op == 12 { Run1(Bin(OR, R2, R1), h); }
    else if op == 13 { Run1(Bin(MOV, R2, R1), h); }
    else if op == 14 { Run2(Bin(NOT, R2, R2), Bin(AND, R2, R1), h); }
    else { Run1(Bin(NOT, R2, R1), h); }
  }

  lemma LogicTailRun(op: nat, x: Operand, rd: nat, fm: Live, carry: bool, h: Host) returns (c: bool, v: bool)
    requires rd < 16
    requires HaveC(x, fm) ==> carry == if x.Imm? then x.carry.value else h.r6 == 1
    requires HaveC(x, fm) && !x.Imm? ==> h.r6 <= 1
    ensures var eff := if HaveC(x, fm) then ToC else FlagsRound(NzOnly(fm));
      Straight(LogicTail(op, x, rd, fm)) && (eff.HasC() ==> c == carry)
        && View(Run(LogicTail(op, x, rd, fm), h)) == Commit(View(h), !Tests(op), rd, eff, h.r1, c, v)
  {
    hide Run, Step, SetFlagsCode, StoreGreg, NewCpsr, Straight, View, FlagsRound, NzOnly;
    StraightFlags(R6, R6, ToC); StraightFlags(R4, R4, FlagsRound(NzOnly(fm)));
    var store: seq<Op> := if Tests(op) then [] else [StoreGreg(R1, rd)];
    var h1 := Run(store, h);
    StoreStage(Tests(op), rd, h);
    if HaveC(x, fm) {
      var imm: seq<Op> := if x.Imm? then [MovI(Bit(x.carry.value), R6)] else [];
      RunSplit(store, imm + SetFlagsCode(R6, R6, ToC), h);
      RunSplit(imm, SetFlagsCode(R6, R6, ToC), h1);
      var h2 := Run(imm, h1);
      CarryStage(x.Imm?, carry, h1);
      StraightPlus(imm, SetFlagsCode(R6, R6, ToC)); StraightPlus(store, imm + SetFlagsCode(R6, R6, ToC));
      FlagStage(R6, ToC, !Tests(op), rd, h, h1, h2);
      c, v := carry, h2.r6 == 1;
    } else {
      RunSplit(store, SetFlagsCode(R4, R4, FlagsRound(NzOnly(fm))), h);
      StraightPlus(store, SetFlagsCode(R4, R4, FlagsRound(NzOnly(fm))));
      NzRound(fm);
      FlagStage(R4, FlagsRound(NzOnly(fm)), !Tests(op), rd, h, h1, h1);
      c, v := h1.r4 == 1, h1.r4 == 1;
    }
  }
  lemma NzRound(fm: Live) ensures var eff := FlagsRound(NzOnly(fm)); eff != ToV && !eff.HasC() {}
  lemma StraightPlus(a: seq<Op>, b: seq<Op>) requires Straight(a) && Straight(b) ensures Straight(a + b) {}
  lemma StoreStage(tests: bool, rd: nat, h: Host)
    requires rd < 16
    ensures var store: seq<Op> := if tests then [] else [StoreGreg(R1, rd)]; var h1 := Run(store, h);
      Straight(store) && View(h1) == (if tests then View(h) else View(h).(r := View(h).r[rd := h.r1]))
      && h1.r1 == h.r1 && h1.r6 == h.r6 && h1.r4 == h.r4
  {
    if tests { RunNil(h); }
    else { Run1(StoreGreg(R1, rd), h); StoreGregStep(R1, rd, h); StoreStraight(rd); hide StoreGreg, View, Step, Run; }
  }
  lemma StoreStraight(rd: nat) ensures Straight([StoreGreg(R1, rd)]) {}
  lemma CarryStage(isImm: bool, carry: bool, h: Host)
    requires !isImm ==> h.r6 <= 1 && carry == (h.r6 == 1)
    ensures var imm: seq<Op> := if isImm then [MovI(Bit(carry), R6)] else []; var h2 := Run(imm, h);
      Straight(imm) && SameGuest(h, h2) && h2.r1 == h.r1 && h2.r6 == Bit(carry)
  { hide Run; if isImm { CarryImm(carry, h); } else { RunNil(h); } }
  lemma FlagStage(rc: Reg, eff: Eff, write: bool, rd: nat, h: Host, h1: Host, h2: Host)
    requires rd < 16 && rc in {R4, R6} && eff != ToV && (eff.HasC() ==> Get(h2, rc) <= 1)
    requires View(h1) == (if write then View(h).(r := View(h).r[rd := h.r1]) else View(h)) && SameGuest(h1, h2) && h2.r1
      == h.r1
    ensures View(Run(SetFlagsCode(rc, rc, eff), h2))
      == Commit(View(h), write, rd, eff, h.r1, Get(h2, rc) == 1, Get(h2, rc) == 1)
  {
    hide Run, SetFlagsCode, NewCpsr;
    SetFlagsRun(rc, rc, eff, h2);
  }
  lemma CarryImm(b: bool, h: Host)
    ensures Run([MovI(Bit(b), R6)], h) == h.(r6 := Bit(b))
  { Run1(MovI(Bit(b), R6), h); }

  lemma LogicAlu(op: nat, a: Word, b: Word, carry: bool, cpsr: Word)
    requires op < 16 && Logical(op)
    ensures var alu := ArmAlu(op, a, b, carry, cpsr); alu.c == carry && alu.v == V(cpsr) && alu.writes == !Tests(op)
  { hide AndW, OrW, XorW, NotW, AddV, SubV; }

  lemma LogicFinish(op: nat, x: Operand, rd: nat, live: Live, s: bool, carry: bool, h: Host)
    requires op < 16 && Logical(op) && rd < 16 && Fits(x)
    requires x.ByReg? ==> !s
    requires x.Imm? ==> carry == if x.carry.Some? then x.carry.value else C(h.r8)
    requires x.Plain? ==> carry == C(h.r8)
    requires s && live.c && x.ByImm? ==> h.r6 == Bit(carry)
    ensures var fm := if s then live else NoFlags();
      Meets(live, s, View(h), rd, ArmAlu(op, h.r1, h.r2, carry, h.r8),
            Exec(ComputeCode(op) + LogicTail(op, x, rd, fm), h))
  {
    var fm := if s then live else NoFlags();
    ComputeRun(op, carry, h.r8, h);
    LogicAlu(op, h.r1, h.r2, carry, h.r8);
    var alu := ArmAlu(op, h.r1, h.r2, carry, h.r8);
    hide Run, Exec, Step, ComputeCode, LogicTail, Agrees, Commit, ArmAlu, SetNzcv, C, V;
    var h1 := Run(ComputeCode(op), h);
    var c, v := LogicTailRun(op, x, rd, fm, carry, h1);
    var eff := if HaveC(x, fm) then ToC else FlagsRound(NzOnly(fm));
    ExecStraightThen(ComputeCode(op), LogicTail(op, x, rd, fm), h);
    ExecStraight(LogicTail(op, x, rd, fm), h1);
    if s { CommitAgrees(live, eff, View(h), !Tests(op), rd, alu.res, alu.c, alu.v, c, v); }
    else { CommitNothing(live, View(h), !Tests(op), rd, alu.res, c, v); }
  }

  // ---- main theorem ------------------------------------------------------------

  predicate AgreesOut(live: Live, g: Guest, got: Guest, want: DpOut) {
    want.Next? && Agrees(live, g, got, want.g)
  }

  function RnValue(rn: nat, pc: Word, g: Guest): Word
    requires rn < 16
  { if rn == 15 then AddW(pc, 8) else g.r[rn] }

  lemma OracleShape(opcode: Word, pc: Word, fm: Live, g: Guest)
    requires DecodeOperand(opcode, fm).Some? && (opcode / 0x1000) % 16 != 15
    requires Fits(DecodeOperand(opcode, fm).value)
    requires ShifterOperand(opcode, pc, g) == Operand2(DecodeOperand(opcode, fm).value, pc, g)
    ensures var x := DecodeOperand(opcode, fm).value; var op := (opcode / 0x20_0000) % 16;
      var s, sh := (opcode / 0x10_0000) % 2 == 1, Operand2(x, pc, g);
      (x.ByReg? ==> Unary(op) && !s)
      && (s && fm.c && Logical(op) && x.ByImm? ==> x.kind < 3)
      && ArmDp(opcode, pc, g) == Next(After(s, g, (opcode / 0x1000) % 16,
           ArmAlu(op, RnValue((opcode / 0x1_0000) % 16, pc, g), sh.value, sh.carry, g.cpsr)))
  {
    var op := (opcode / 0x20_0000) % 16;
    var a, a' := RnValue((opcode / 0x1_0000) % 16, pc, g), if (opcode / 0x1_0000) % 16 == 15 then AddW(pc,
        12) else g.r[(opcode / 0x1_0000) % 16];
    var sh := ShifterOperand(opcode, pc, g);
    UnaryIgnores(op, a, a', sh.value, sh.carry, g.cpsr);
    FieldZero(opcode);
    hide ShifterOperand, ArmAlu, Operand2, OrW, Lsl, Lsr, BitOf, SetNzcv, AddW;
  }
  lemma UnaryIgnores(op: nat, a: Word, a': Word, b: Word, carry: bool, cpsr: Word)
    requires op < 16
    ensures Unary(op) ==> ArmAlu(op, a, b, carry, cpsr) == ArmAlu(op, a', b, carry, cpsr)
  { hide AddV, SubV, AndW, OrW, XorW, C, V; }

  /** First operand into R1 unless the opcode ignores it, then the second into R2. */
  lemma FrontExec(op: nat, rn: nat, x: Operand, wantC: bool, pc: Word, rest: seq<Op>, h: Host) returns (h2: Host)
    requires op < 16 && rn < 16 && Fits(x) && (wantC && x.ByImm? ==> x.kind < 3)
    ensures var rnc := if Unary(op) then [] else RnCode(rn, pc);
      Exec(rnc + (OperandCode(x, wantC, pc) + rest), h) == Exec(rest, h2)
    ensures View(h2) == View(h) && h2.r8 == h.r8 && h2.r2 == Operand2(x, pc, View(h)).value
    ensures Unary(op) || h2.r1 == RnValue(rn, pc, View(h))
    ensures wantC && x.ByImm? ==> h2.r6 == Bit(Operand2(x, pc, View(h)).carry)
  {
    hide Exec, Run, Step, OperandCode, Operand2, AddW;
    var rnc := if Unary(op) then [] else RnCode(rn, pc);
    var h1 := Run(rnc, h);
    assert Straight(rnc) && SameGuest(h, h1) && (Unary(op) || h1.r1 == RnValue(rn, pc, View(h))) by {
      if Unary(op) { RunNil(h); } else { RnRun(rn, pc, h); }
    }
    assert View(h1) == View(h);
    OperandExec(x, wantC, pc, h1);
    h2 := Exec(OperandCode(x, wantC, pc), h1).value;
    Chain(rnc, OperandCode(x, wantC, pc), rest, h);
  }

  lemma LogicCorrect(op: nat, rn: nat, rd: nat, x: Operand, pc: Word, live: Live, s: bool, h: Host)
    requires op < 16 && rn < 16 && rd < 16 && Fits(x) && Logical(op)
    requires x.ByReg? ==> Unary(op) && !s
    requires s && live.c && x.ByImm? ==> x.kind < 3
    requires !(Tests(op) && (if s then live else NoFlags()) == NoFlags())
    ensures var fm, sh := if s then live else NoFlags(), Operand2(x, pc, View(h));
      Meets(live, s, View(h), rd, ArmAlu(op, RnValue(rn, pc, View(h)), sh.value, sh.carry, h.r8),
            Exec(ArmDpCode(op, rn, rd, x, pc, fm), h))
  {
    var fm, sh := if s then live else NoFlags(), Operand2(x, pc, View(h));
    hide ArmAlu, Exec, Run, Step, Agrees, OperandCode, Operand2, ComputeCode, LogicTail, C, AddW, RnCode, Meets, View;
    var h2 := FrontExec(op, rn, x, fm.c, pc, ComputeCode(op) + LogicTail(op, x, rd, fm), h);
    UnaryIgnores(op, RnValue(rn, pc, View(h)), h2.r1, sh.value, sh.carry, h.r8);
    OperandCarry(x, pc, View(h));
    CpsrView(h);
    LogicFinish(op, x, rd, live, s, sh.carry, h2);
  }

  lemma CodeCorrect(op: nat, rn: nat, rd: nat, x: Operand, pc: Word, live: Live, s: bool, h: Host)
    requires op < 16 && rn < 16 && rd < 16 && Fits(x)
    requires x.ByReg? ==> Unary(op) && !s
    requires s && live.c && Logical(op) && x.ByImm? ==> x.kind < 3
    ensures var fm, sh := if s then live else NoFlags(), Operand2(x, pc, View(h));
      Meets(live, s, View(h), rd, ArmAlu(op, RnValue(rn, pc, View(h)), sh.value, sh.carry, h.r8),
            Exec(ArmDpCode(op, rn, rd, x, pc, fm), h))
  {
    var fm, sh := if s then live else NoFlags(), Operand2(x, pc, View(h));
    hide ArmAlu, Exec, Run, Step, Agrees, OperandCode, Operand2, AddSubCode, ReverseCode, LogicTail, ComputeCode, C,
         AddW, RnCode, Meets, View, Logical, Tests, Unary, NoFlags, RnValue;
    if Tests(op) && fm == NoFlags() {
      EmptyTest(op, rd, live, s, RnValue(rn, pc, View(h)), sh.value, sh.carry, h);
    } else if Logical(op) {
      LogicCorrect(op, rn, rd, x, pc, live, s, h);
    } else if op == 3 || (5 <= op <= 7) {
      var h2 := FrontExec(op, rn, x, false, pc, ReverseCode(op, rd, fm), h);
      ReverseFinish(op, rd, live, s, sh.carry, h2);
    } else {
      var h2 := FrontExec(op, rn, x, false, pc, AddSubCode(op == 2 || op == 10, rd, op == 2 || op == 4, fm), h);
      AddSubFinish(op, rd, live, s, sh.carry, h2);
    }
  }
  lemma CpsrView(h: Host) ensures View(h).cpsr == h.r8 {}
  lemma OperandCarry(x: Operand, pc: Word, g: Guest)
    requires Fits(x)
    ensures x.Imm? ==> Operand2(x, pc, g).carry == if x.carry.Some? then x.carry.value else C(g.cpsr)
    ensures x.Plain? ==> Operand2(x, pc, g).carry == C(g.cpsr)
  {}
  lemma Chain(a: seq<Op>, b: seq<Op>, c: seq<Op>, h: Host)
    requires Straight(a) && Exec(b, Run(a, h)).Some?
    ensures Exec(a + (b + c), h) == Exec(c, Exec(b, Run(a, h)).value)
  { hide Run, Step, Exec; ExecStraightThen(a, b + c, h); ExecAppend(b, c, Run(a, h)); }

  /** CMP/CMN/TST/TEQ with every flag dead emit nothing. */
  lemma EmptyTest(op: nat, rd: nat, live: Live, s: bool, a: Word, b: Word, carry: bool, h: Host)
    requires op < 16 && rd < 16 && Tests(op) && (if s then live else NoFlags()) == NoFlags()
    ensures Meets(live, s, View(h), rd, ArmAlu(op, a, b, carry, h.r8), Exec([], h))
  {
    var alu := ArmAlu(op, a, b, carry, h.r8);
    assert !alu.writes;
    var g := View(h);
    Unpack(g.cpsr);
    assert Commit(g, false, rd, None0, alu.res, alu.c, alu.v) == g;
    if s { CommitAgrees(live, None0, g, false, rd, alu.res, alu.c, alu.v, alu.c, alu.v); }
    else { CommitNothing(live, g, false, rd, alu.res, alu.c, alu.v); }
    hide ArmAlu, Agrees, Commit, SetNzcv;
  }

  /** Running the code emitted for an accepted opcode does what the C helper does. */
  lemma ArmDpCorrect(opcode: Word, pc: Word, live: Live, h: Host)
    requires ArmDpNative(opcode, pc, live).Some?
    ensures var o := Exec(ArmDpNative(opcode, pc, live).value, h);
      o.Some? && AgreesOut(live, View(h), View(o.value), ArmDp(opcode, pc, View(h)))
  {
    var op := (opcode / 0x20_0000) % 16;
    var s := (opcode / 0x10_0000) % 2 == 1;
    var rn := (opcode / 0x1_0000) % 16;
    var rd := (opcode / 0x1000) % 16;
    var fm := if s then live else NoFlags();
    var x := DecodeOperand(opcode, fm).value;
    DecodeCorrect(opcode, pc, fm, View(h));
    OracleShape(opcode, pc, fm, View(h));
    hide ArmDp, DecodeOperand, ShifterOperand, ArmAlu, Exec, Agrees;
    CodeCorrect(op, rn, rd, x, pc, live, s, h);
  }
}
