/** Guest ARM state and the C helpers that define the meaning of each
    data-processing, shift and multiply opcode. */
module Guest {
  import opened Words

  type RegFile = f: seq<Word> | |f| == 16 witness seq(16, _ => 0)

  datatype Guest = Guest(r: RegFile, cpsr: Word)

  // CPSR flags, bits 31..28, over 28 bits that no data-processing opcode touches.
  predicate N(cpsr: Word) { cpsr >= 0x8000_0000 }
  predicate Z(cpsr: Word) { cpsr % 0x8000_0000 >= 0x4000_0000 }
  predicate C(cpsr: Word) { cpsr % 0x4000_0000 >= 0x2000_0000 }
  predicate V(cpsr: Word) { cpsr % 0x2000_0000 >= 0x1000_0000 }
  function Low(cpsr: Word): (l: Word) ensures l < 0x1000_0000 { cpsr % 0x1000_0000 }

  function Flag(b: bool, w: Word): Word { if b then w else 0 }

  function Pack(low: Word, n: bool, z: bool, c: bool, v: bool): Word
    requires low < 0x1000_0000
  {
    low + Flag(v, 0x1000_0000) + Flag(c, 0x2000_0000) + Flag(z, 0x4000_0000) + Flag(n, 0x8000_0000)
  }

  lemma PackFields(low: Word, n: bool, z: bool, c: bool, v: bool)
    requires low < 0x1000_0000
    ensures var w := Pack(low, n, z, c, v);
      Low(w) == low && N(w) == n && Z(w) == z && C(w) == c && V(w) == v
  {}

  lemma Unpack(cpsr: Word)
    ensures cpsr == Pack(Low(cpsr), N(cpsr), Z(cpsr), C(cpsr), V(cpsr))
  {}

  function SetNz(g: Guest, res: Word): Guest {
    g.(cpsr := Pack(Low(g.cpsr), Neg31(res), res == 0, C(g.cpsr), V(g.cpsr)))
  }
  function SetNzc(g: Guest, res: Word, c: bool): Guest {
    g.(cpsr := Pack(Low(g.cpsr), Neg31(res), res == 0, c, V(g.cpsr)))
  }
  function SetNzcv(g: Guest, res: Word, c: bool, v: bool): Guest {
    g.(cpsr := Pack(Low(g.cpsr), Neg31(res), res == 0, c, v))
  }

  // Signed-overflow bits of the C helpers.
  predicate AddV(a: Word, b: Word, res: Word) {
    Neg31(AndW(NotW(XorW(a, b)), XorW(a, res)))
  }
  predicate SubV(a: Word, b: Word, res: Word) {
    Neg31(AndW(XorW(a, b), XorW(a, res)))
  }
  lemma OverflowSigns(a: Word, b: Word, res: Word)
    ensures AddV(a, b, res) <==> Neg31(a) == Neg31(b) && Neg31(a) != Neg31(res)
    ensures SubV(a, b, res) <==> Neg31(a) != Neg31(b) && Neg31(a) != Neg31(res)
  {
    SignOf(BXor, a, b); SignOf(BXor, a, res);
    SignOf(BAnd, NotW(XorW(a, b)), XorW(a, res));
    SignOf(BAnd, XorW(a, b), XorW(a, res));
  }

  datatype Sum = Sum(res: Word, c: bool, v: bool)

  /** do_addc: 64-bit a + b + cin with the flags it sets. */
  function AddC(a: Word, b: Word, cin: Word): Sum
    requires cin <= 1
  {
    var tmp := a + b + cin;
    var res := tmp % 0x1_0000_0000;
    Sum(res, tmp / 0x1_0000_0000 != 0, AddV(a, b, res))
  }

  datatype Shifted = Shifted(value: Word, carry: bool)

  /** arm_shifter_operand. */
  function ShifterOperand(opcode: Word, pc: Word, g: Guest): Shifted {
    var c := C(g.cpsr);
    if (opcode / 0x0200_0000) % 2 == 1 then
      var imm := opcode % 256;
      var rot := ((opcode / 256) % 16) * 2;
      var v := if rot == 0 then imm else OrW(Lsr(imm, rot), Lsl(imm, 32 - rot));
      Shifted(v, if rot == 0 then c else BitOf(v, 31))
    else
      var rm := opcode % 16;
      var byReg := (opcode / 16) % 2 == 1;
      var val := if rm == 15 then AddW(pc, if byReg then 12 else 8) else g.r[rm];
      var kind := (opcode / 32) % 4;
      var amount := if byReg then g.r[(opcode / 256) % 16] % 256 else (opcode / 128) % 32;
      if byReg && amount == 0 then Shifted(val, c)
      else Shift(kind, amount, val, c)
  }

  /** The shared switch of arm_shifter_operand. */
  function Shift(kind: nat, amount: nat, val: Word, c: bool): Shifted
    requires kind < 4
  {
    match kind
    case 0 =>
      if amount == 0 then Shifted(val, c)
      else if amount < 32 then Shifted(Lsl(val, amount), BitOf(val, 32 - amount))
      else Shifted(0, amount == 32 && val % 2 == 1)
    case 1 =>
      var n := if amount == 0 then 32 else amount;
      if n < 32 then Shifted(Lsr(val, n), BitOf(val, n - 1))
      else Shifted(0, n == 32 && BitOf(val, 31))
    case 2 =>
      if amount == 0 || amount >= 32 then Shifted(Asr(val, 31), BitOf(val, 31))
      else Shifted(Asr(val, amount), BitOf(val, amount - 1))
    case _ =>
      if amount == 0 then Shifted(OrW(Lsl(Bit(c), 31), Lsr(val, 1)), val % 2 == 1)
      else
        var n := amount % 32;
        if n == 0 then Shifted(val, BitOf(val, 31))
        else Shifted(OrW(Lsr(val, n), Lsl(val, 32 - n)), BitOf(val, n - 1))
  }

  datatype DpOut = Next(g: Guest) | WritesPc(res: Word, restore: bool)

  datatype AluOut = AluOut(res: Word, c: bool, v: bool, writes: bool)

  /** The opcode switch of cgba_sh4_arm_dp. */
  function ArmAlu(op: nat, a: Word, b: Word, carry: bool, cpsr: Word): AluOut
    requires op < 16
  {
    var oldc := Bit(C(cpsr));
    var oldv := V(cpsr);
    var sub := (a - b) % 0x1_0000_0000;
    var rsb := (b - a) % 0x1_0000_0000;
    var add := (a + b) % 0x1_0000_0000;
    match op
    case 0 => AluOut(AndW(a, b), carry, oldv, true)
    case 1 => AluOut(XorW(a, b), carry, oldv, true)
    case 2 => AluOut(sub, a >= b, SubV(a, b, sub), true)
    case 3 => AluOut(rsb, b >= a, SubV(b, a, rsb), true)
    case 4 => AluOut(add, a + b >= 0x1_0000_0000, AddV(a, b, add), true)
    case 5 =>
      var res := (a + b + oldc) % 0x1_0000_0000;
      AluOut(res, a + b + oldc >= 0x1_0000_0000, AddV(a, b, res), true)
    case 6 =>
      var res := (a - b - (1 - oldc)) % 0x1_0000_0000;
      AluOut(res, a >= b + (1 - oldc), SubV(a, b, res), true)
    case 7 =>
      var res := (b - a - (1 - oldc)) % 0x1_0000_0000;
      AluOut(res, b >= a + (1 - oldc), SubV(b, a, res), true)
    case 8 => AluOut(AndW(a, b), carry, oldv, false)
    case 9 => AluOut(XorW(a, b), carry, oldv, false)
    case 10 => AluOut(sub, a >= b, SubV(a, b, sub), false)
    case 11 => AluOut(add, a + b >= 0x1_0000_0000, AddV(a, b, add), false)
    case 12 => AluOut(OrW(a, b), carry, oldv, true)
    case 13 => AluOut(b, carry, oldv, true)
    case 14 => AluOut(AndW(a, NotW(b)), carry, oldv, true)
    case _ => AluOut(NotW(b), carry, oldv, true)
  }

  /** cgba_sh4_arm_dp. */
  function ArmDp(opcode: Word, pc: Word, g: Guest): DpOut {
    var op := (opcode / 0x20_0000) % 16;
    var s := (opcode / 0x10_0000) % 2 == 1;
    var rn := (opcode / 0x1_0000) % 16;
    var rd := (opcode / 0x1000) % 16;
    var byReg := (opcode / 0x0200_0000) % 2 == 0 && (opcode / 16) % 2 == 1;
    var a := if rn == 15 then AddW(pc, if byReg then 12 else 8) else g.r[rn];
    var sh := ShifterOperand(opcode, pc, g);
    var alu := ArmAlu(op, a, sh.value, sh.carry, g.cpsr);
    if alu.writes && rd == 15 then WritesPc(alu.res, s)
    else
      var g1 := if alu.writes then g.(r := g.r[rd := alu.res]) else g;
      Next(if s then SetNzcv(g1, alu.res, alu.c, alu.v) else g1)
  }

  datatype ThumbOut = Falls(g: Guest) | Jumps(g: Guest)

  /** cgba_sh4_thumb_dp; Jumps is its return value 1 after writing r15. */
  function ThumbDp(opcode: Word, pc: Word, g: Guest): ThumbOut {
    var hi := (opcode / 256) % 256;
    var cin := Bit(C(g.cpsr));
    if 0x18 <= hi <= 0x1F then
      var rd, rs, arg := opcode % 8, (opcode / 8) % 8, (opcode / 64) % 8;
      var b := if (opcode / 1024) % 2 == 1 then arg else g.r[arg];
      var s := if (opcode / 512) % 2 == 1 then AddC(g.r[rs], NotW(b), 1) else AddC(g.r[rs], b, 0);
      Falls(SetSum(g.(r := g.r[rd := s.res]), s))
    else if 0x20 <= hi <= 0x3F then
      var rd, imm := (opcode / 256) % 8, opcode % 256;
      var a := g.r[rd];
      var sub := (opcode / 2048) % 4;
      if sub == 0 then Falls(SetNz(g.(r := g.r[rd := imm]), imm))
      else if sub == 1 then Falls(SetSum(g, AddC(a, NotW(imm), 1)))
      else
        var s := if sub == 2 then AddC(a, imm, 0) else AddC(a, NotW(imm), 1);
        Falls(SetSum(g.(r := g.r[rd := s.res]), s))
    else if 0x40 <= hi <= 0x43 then
      var rd, rs := opcode % 8, (opcode / 8) % 8;
      Falls(ThumbAlu((opcode / 64) % 16, rd, g.r[rd], g.r[rs], cin, g))
    else if 0x44 <= hi <= 0x46 then
      var op := (opcode / 256) % 4;
      var rd := opcode % 8 + (if (opcode / 128) % 2 == 1 then 8 else 0);
      var rs := (opcode / 8) % 16;
      var a := if rd == 15 then AddW(pc, 4) else g.r[rd];
      var b := if rs == 15 then AddW(pc, 4) else g.r[rs];
      if op == 1 then Falls(SetSum(g, AddC(a, NotW(b), 1)))
      else
        var res := if op == 0 then AddW(a, b) else b;
        if rd == 15 then Jumps(g.(r := g.r[15 := AndW(res, 0xFFFF_FFFE)]))
        else Falls(g.(r := g.r[rd := res]))
    else Falls(g)
  }

  function SetSum(g: Guest, s: Sum): Guest { SetNzcv(g, s.res, s.c, s.v) }

  /** Format 4; the shift opcodes are not routed here. */
  function ThumbAlu(alu: nat, rd: nat, a: Word, b: Word, cin: Word, g: Guest): Guest
    requires alu < 16 && rd < 16 && cin <= 1
  {
    match alu
    case 0 => Logic(g, rd, AndW(a, b))
    case 1 => Logic(g, rd, XorW(a, b))
    case 5 => Arith(g, rd, AddC(a, b, cin))
    case 6 => Arith(g, rd, AddC(a, NotW(b), cin))
    case 8 => SetNz(g, AndW(a, b))
    case 9 => Arith(g, rd, AddC(NotW(b), 0, 1))
    case 10 => SetSum(g, AddC(a, NotW(b), 1))
    case 11 => SetSum(g, AddC(a, b, 0))
    case 12 => Logic(g, rd, OrW(a, b))
    case 13 => Logic(g, rd, MulW(a, b))
    case 14 => Logic(g, rd, AndW(a, NotW(b)))
    case 15 => Logic(g, rd, NotW(b))
    case _ => g
  }
  function Logic(g: Guest, rd: nat, res: Word): Guest
    requires rd < 16
  { SetNz(g.(r := g.r[rd := res]), res) }
  function Arith(g: Guest, rd: nat, s: Sum): Guest
    requires rd < 16
  { SetSum(g.(r := g.r[rd := s.res]), s) }

  /** cgba_sh4_thumb_shift_imm. */
  function ThumbShiftImm(opcode: Word, g: Guest): Guest
    requires (opcode / 2048) % 4 < 3
  {
    var val := g.r[(opcode / 8) % 8];
    var sh := Shift((opcode / 2048) % 4, (opcode / 64) % 32, val, C(g.cpsr));
    SetNzc(g.(r := g.r[opcode % 8 := sh.value]), sh.value, sh.carry)
  }

  /** cgba_sh4_thumb_shift_reg: sub-opcodes 2, 3, 4 are LSL, LSR, ASR, the rest ROR. */
  function ThumbShiftReg(opcode: Word, g: Guest): Guest {
    var sub := (opcode / 64) % 16;
    var kind := if 2 <= sub <= 4 then sub - 2 else 3;
    var rd := opcode % 8;
    var amount := g.r[(opcode / 8) % 8] % 256;
    var sh := if amount == 0 then Shifted(g.r[rd], C(g.cpsr)) else Shift(kind, amount, g.r[rd], C(g.cpsr));
    SetNzc(g.(r := g.r[rd := sh.value]), sh.value, sh.carry)
  }

  /** cgba_sh4_arm_multiply. */
  function ArmMultiply(opcode: Word, g: Guest): Guest {
    var rd, rn, rs, rm := (opcode / 0x1_0000) % 16, (opcode / 0x1000) % 16, (opcode / 256) % 16, opcode % 16;
    var p := MulW(g.r[rm], g.r[rs]);
    var res := if (opcode / 0x20_0000) % 2 == 1 then AddW(p, g.r[rn]) else p;
    var g1 := g.(r := g.r[rd := res]);
    if (opcode / 0x10_0000) % 2 == 1 then SetNz(g1, res) else g1
  }

  /** cgba_sh4_arm_multiply_long: a 64-bit product, plus rdhi:rdlo when accumulating. */
  function ArmMultiplyLong(opcode: Word, g: Guest): Guest {
    var hi, lo, rs, rm := (opcode / 0x1_0000) % 16, (opcode / 0x1000) % 16, (opcode / 256) % 16, opcode % 16;
    var x, y: int := g.r[rm], g.r[rs];
    var p: int := if (opcode / 0x40_0000) % 2 == 1 then Signed(x) * Signed(y) else x * y;
    var u, l: int := g.r[hi], g.r[lo];
    var acc: int := if (opcode / 0x20_0000) % 2 == 1 then u * 0x1_0000_0000 + l else 0;
    var res: int := (p + acc) % 0x1_0000_0000_0000_0000;
    var rl: int, rh: int := res % 0x1_0000_0000, res / 0x1_0000_0000;
    var g1 := g.(r := g.r[lo := rl][hi := rh]);
    if (opcode / 0x10_0000) % 2 == 1 then
      g1.(cpsr := Pack(Low(g.cpsr), Neg31(rh), res == 0, C(g.cpsr), V(g.cpsr)))
    else g1
  }
}
