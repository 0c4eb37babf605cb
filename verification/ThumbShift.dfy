/** Thumb shifts as opcodes: the emitted code against the C helpers. */
module ThumbShift {
  import opened Words
  import opened Guest
  import opened Sh4
  import opened Alu
  import opened Shifts
  import opened ArmDp
  import opened Thumb

  /** Format 1, as the translator's shift macro calls sh4g_shift_imm. */
  function ShiftImmNative(opcode: Word, live: Live): seq<Op>
    requires (opcode / 2048) % 4 < 3
  { ShiftImmCode((opcode / 2048) % 4, opcode % 8, (opcode / 8) % 8, (opcode / 64) % 32, live) }

  /** sh4g_thumb_shift_reg_native; None for sub-opcodes that are not shifts. */
  function ShiftRegNative(opcode: Word, live: Live): Option<seq<Op>> {
    var sub := (opcode / 64) % 16;
    if sub in {2, 3, 4, 7} then
      Some(ThumbShiftRegCode(if sub == 7 then 3 else sub - 2, opcode % 8, (opcode / 8) % 8, live))
    else None
  }

  lemma NzcAgrees(live: Live, eff: Eff, g: Guest, write: bool, rd: nat, sh: Shifted, c': bool, v': bool)
    requires rd < 16 && eff != ToV
    requires live.n ==> eff != None0
    requires live.z ==> eff.HasZ()
    requires if eff.HasC() then c' == sh.carry else live.c ==> sh.carry == C(g.cpsr)
    ensures Agrees(live, g, Commit(g, write, rd, eff, sh.value, c', v'),
                   SetNzc(if write then g.(r := g.r[rd := sh.value]) else g, sh.value, sh.carry))
  {
    CommitAgrees(live, eff, g, write, rd, sh.value, sh.carry, V(g.cpsr), c', v');
    hide Agrees, Commit, V, C;
  }
  lemma NzcCovers(live: Live, wantC: bool)
    ensures var eff := FlagsNzc(live, wantC);
      eff != ToV && (live.n ==> eff != None0) && (live.z ==> eff.HasZ()) && (eff.HasC() <==> live.c && wantC)
  {}

  lemma ShiftImmCorrect(opcode: Word, live: Live, h: Host)
    requires (opcode / 2048) % 4 < 3
    ensures var o := Exec(ShiftImmNative(opcode, live), h);
      o.Some? && Agrees(live, View(h), View(o.value), ThumbShiftImm(opcode, View(h)))
  {
    var kind, rd, rs, imm5 := (opcode / 2048) % 4, opcode % 8, (opcode / 8) % 8, (opcode / 64) % 32;
    var wantC := live.c && !(kind == 0 && imm5 == 0);
    var sh := Shift(kind, imm5, View(h).r[rs], C(h.r8));
    hide Exec, Run, Step, ShiftImmCode, Agrees, Commit, Shift, SetNzc, View, C, FlagsNzc;
    ShiftImmRun(kind, rd, rs, imm5, live, h);
    StraightImm(kind, rd, rs, imm5, live);
    ViewCpsr(h);
    KeepsCarry(kind, imm5, View(h).r[rs], C(h.r8));
    NzcCovers(live, wantC);
    NzcAgrees(live, FlagsNzc(live, wantC), View(h), true, rd, sh, sh.carry, false);
    ExecStraight(ShiftImmCode(kind, rd, rs, imm5, live), h);
  }
  lemma KeepsCarry(kind: nat, imm5: nat, x: Word, c: bool)
    requires kind < 3
    ensures kind == 0 && imm5 == 0 ==> Shift(kind, imm5, x, c).carry == c
  { hide Asr, BitOf; }
  lemma StraightImm(kind: nat, rd: nat, rs: nat, imm5: nat, live: Live)
    ensures Straight(ShiftImmCode(kind, rd, rs, imm5, live))
  {
    var wantC := live.c && !(kind == 0 && imm5 == 0);
    StraightTail(rd, FlagsNzc(live, wantC));
    assert Straight(ThumbCarryOps(kind, imm5)) && Straight(ThumbShiftOps(kind, imm5));
    hide TailCode, ThumbCarryOps, ThumbShiftOps;
  }

  lemma PrologueRun1(rd: nat, rs: nat, h: Host)
    requires rd < 16 && rs < 16
    ensures var h' := Run(RegPrologue(rd, rs, R1), h);
      h' == h.(r0 := View(h).r[rs] % 256, r1 := View(h).r[rd], t := View(h).r[rs] % 256 == 0)
  {
    var h1 := Step(LoadGreg(rd, R1), h);
    LoadGregStep(rd, R1, h); LoadGregStep(rs, R0, h1);
    AndByte(View(h).r[rs]); AndSelf(View(h).r[rs] % 256);
    hide Run, AndW, LoadGreg;
    assert View(h1).r == View(h).r;
    Run4(LoadGreg(rd, R1), LoadGreg(rs, R0), AndI(0xFF), Test(TST, R0, R0), h);
  }

  /** Amount 0: only N and Z are rewritten. */
  lemma ZeroAmount(rd: nat, live: Live, h: Host)
    requires rd < 16 && h.r1 == View(h).r[rd]
    ensures var code := SetFlagsCode(R4, R4, FlagsRound(NzOnly(live)));
      var sh := Shifted(h.r1, C(h.r8));
      Straight(code) && Agrees(live, View(h), View(Run(code, h)),
          SetNzc(View(h).(r := View(h).r[rd := sh.value]), sh.value, sh.carry))
  {
    var eff := FlagsRound(NzOnly(live));
    StraightFlags(R4, R4, eff);
    SetFlagsRun(R4, R4, eff, h);
    assert View(h).r[rd := h.r1] == View(h).r;
    var h' := Run(SetFlagsCode(R4, R4, eff), h);
    assert View(h') == Commit(View(h), false, rd, eff, h.r1, h.r4 == 1, h.r4 == 1);
    NzcAgrees(live, eff, View(h), false, rd, Shifted(h.r1, C(h.r8)), h.r4 == 1, h.r4 == 1);
  }

  lemma StraightTail(rd: nat, eff: Eff)
    ensures Straight(TailCode(true, rd, R4, R4, eff))
  { StraightFlags(R4, R4, eff); hide SetFlagsCode; }

  lemma SomeAmount(kind: nat, rd: nat, live: Live, h: Host)
    requires kind < 4 && rd < 16 && 1 <= h.r0 < 256
    ensures var code := ThumbRegBody(kind, live.c) + TailCode(true, rd, R4, R4, FlagsNzc(live, live.c));
      var sh, o := Shift(kind, h.r0, h.r1, C(h.r8)), Exec(code, h);
      o.Some? && Agrees(live, View(h), View(o.value),
          SetNzc(View(h).(r := View(h).r[rd := sh.value]), sh.value, sh.carry))
  {
    hide Exec, Run, Step, ThumbRegBody, TailCode, Agrees, Commit, Shift, SetNzc, View, C, FlagsNzc, Straight;
    var eff := FlagsNzc(live, live.c);
    var tail := TailCode(true, rd, R4, R4, eff);
    var sh := Shift(kind, h.r0, h.r1, C(h.r8));
    ThumbRegExec(kind, live.c, C(h.r8), h);
    NzcCovers(live, live.c);
    StraightTail(rd, eff);
    var h2 := Exec(ThumbRegBody(kind, live.c), h).value;
    ViewOf(h, h2);
    ExecAppend(ThumbRegBody(kind, live.c), tail, h);
    ExecStraight(tail, h2);
    TailRun(true, rd, R4, R4, eff, h2);
    NzcAgrees(live, eff, View(h), true, rd, sh, h2.r4 == 1, h2.r4 == 1);
  }

  lemma ShiftRegCorrect(opcode: Word, live: Live, h: Host)
    requires ShiftRegNative(opcode, live).Some?
    ensures var o := Exec(ShiftRegNative(opcode, live).value, h);
      o.Some? && Agrees(live, View(h), View(o.value), ThumbShiftReg(opcode, View(h)))
  {
    var sub := (opcode / 64) % 16;
    var kind, rd, rs := if sub == 7 then 3 else sub - 2, opcode % 8, (opcode / 8) % 8;
    var taken := SetFlagsCode(R4, R4, FlagsRound(NzOnly(live)));
    var other := ThumbRegBody(kind, live.c) + TailCode(true, rd, R4, R4, FlagsNzc(live, live.c));
    var p := RegPrologue(rd, rs, R1);
    PrologueRun1(rd, rs, h);
    StraightPrologue(rd, rs);
    var h1 := Run(p, h);
    assert View(h1) == View(h);
    hide Exec, Run, Step, ThumbRegBody, TailCode, Agrees, Shift, SetNzc, SetFlagsCode, RegPrologue, FlagsNzc, C;
    ExecStraightThen(p, Branches(taken, other), h);
    if h1.t { ZeroAmount(rd, live, h1); ExecStraight(taken, h1); } else { SomeAmount(kind, rd, live, h1); }
    ExecBranches(taken, other, h1);
  }
}
