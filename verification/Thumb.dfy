/** Native emission of Thumb data-processing and shifts, against the C helpers. */
module Thumb {
  import opened Words
  import opened Guest
  import opened Sh4
  import opened Alu
  import opened Shifts
  import opened ArmDp

  /** Emitted code; `exits` marks the PC writes that leave through helper_exit. */
  datatype Emitted = Emitted(code: seq<Op>, exits: bool)

  function Stay(code: seq<Op>): Option<Emitted> { Some(Emitted(code, false)) }

  function SourceOp(rs: nat, pc: Word, n: Reg): Op { if rs == 15 then Const(AddW(pc, 4), n) else LoadGreg(rs, n) }

  function LogicOps(alu: nat): seq<Op> {
    if alu == 13 then [Mult(MULL, R2, R1), StsMacl(R1)]
    else ComputeCode(if alu == 0 || alu == 8 then 0 else if alu == 1 then 1 else if alu == 12 then 12
                     else if alu == 14 then 14 else 15)
  }
  predicate ThumbLogic(alu: nat) { alu in {0, 1, 8, 12, 13, 14, 15} }

  /** Format 4 of sh4g_thumb_dp_native. */
  function AluCode(alu: nat, rd: nat, rs: nat, fm: Live): Option<Emitted>
    requires alu < 16
  {
    if alu == 5 || alu == 6 then Stay([LoadGreg(rd, R1), LoadGreg(rs, R2)] + CarryCode(alu == 6, rd, fm))
    else if 9 <= alu <= 11 then
      if alu != 9 && fm == NoFlags() then Stay([])
      else Stay([if alu == 9 then MovI(0, R1) else LoadGreg(rd, R1), LoadGreg(rs, R2)]
                + AddSubCode(alu != 11, rd, alu == 9, fm))
    else if ThumbLogic(alu) then
      if alu == 8 && fm == NoFlags() then Stay([])
      else Stay((if alu == 15 then [LoadGreg(rs, R2)] else [LoadGreg(rd, R1), LoadGreg(rs, R2)])
                + (LogicOps(alu) + TailCode(alu != 8, rd, R4, R4, FlagsRound(NzOnly(fm)))))
    else None
  }

  function JumpTail(): seq<Op> {
    [MovI(-2, R2), Bin(AND, R2, R0), StG(R0, 15), Bin(MOV, R0, R4), MovI(1, R1)]
  }

  /** Format 5. */
  function HighCode(op: nat, rd: nat, rs: nat, pc: Word, fm: Live): Option<Emitted> {
    if op > 2 then None
    else if op == 1 && fm == NoFlags() then Stay([])
    else if op == 1 then Stay([SourceOp(rd, pc, R1), SourceOp(rs, pc, R2)] + AddSubCode(true, 0, false, fm))
    else if rd == 15 then
      Some(Emitted((if op == 0 then [Const(AddW(pc, 4), R0), SourceOp(rs, pc, R2), Bin(ADD, R2, R0)]
                    else [SourceOp(rs, pc, R0)]) + JumpTail(), true))
    else if op == 0 then Stay([LoadGreg(rd, R1), SourceOp(rs, pc, R2)] + AddSubCode(false, rd, true, NoFlags()))
    else Stay([SourceOp(rs, pc, R1), StoreGreg(R1, rd)])
  }

  /** sh4g_thumb_dp_native, cycle debit aside. */
  function ThumbDpNative(opcode: Word, pc: Word, fm: Live): Option<Emitted> {
    var hi := (opcode / 256) % 256;
    if opcode == 0x46C0 then Stay([])
    else if 0x20 <= hi <= 0x27 then
      Stay([Const(opcode % 256, R1)] + TailCode(true, (opcode / 256) % 8, R4, R4, FlagsRound(NzOnly(fm))))
    else if 0x28 <= hi <= 0x3F then
      var sub, rd := (opcode / 2048) % 4, (opcode / 256) % 8;
      if sub == 1 && fm == NoFlags() then Stay([])
      else Stay([LoadGreg(rd, R1), Const(opcode % 256, R2)] + AddSubCode(sub != 2, rd, sub != 1, fm))
    else if 0x18 <= hi <= 0x1F then
      var rd, rn, arg := opcode % 8, (opcode / 8) % 8, (opcode / 64) % 8;
      var isSub, isImm := (opcode / 512) % 2 == 1, (opcode / 1024) % 2 == 1;
      Stay([LoadGreg(rn, R1), if isImm then Const(arg, R2) else LoadGreg(arg, R2)] + AddSubCode(isSub, rd, true, fm))
    else if 0x40 <= hi <= 0x43 then
      AluCode((opcode / 64) % 16, opcode % 8, (opcode / 8) % 8, fm)
    else if 0x44 <= hi <= 0x46 then
      HighCode((opcode / 256) % 4, opcode % 8 + (if (opcode / 128) % 2 == 1 then 8 else 0), (opcode / 8) % 16, pc, fm)
    else None
  }

  // ---- correctness -----------------------------------------------------------

  predicate Loaded(a: Word, b: Word, h: Host, h': Host) {
    SameGuest(h, h') && View(h') == View(h) && h'.r1 == a && h'.r2 == b
  }

  lemma PairRun(x: Op, y: Op, a: Word, b: Word, rest: seq<Op>, h: Host)
    requires Loads(x, y, a, b, h) && Straight(rest)
    ensures var h2 := h.(r1 := a, r2 := b);
      View(h2) == View(h) && Exec([x, y] + rest, h) == Some(Run(rest, h2))
  {
    hide Step, Run, Exec;
    assert Straight([x, y] + rest);
    ExecStraight([x, y] + rest, h);
    RunSplit([x, y], rest, h);
    Run2(x, y, h);
  }

  lemma RoundIs(live: Live)
    ensures var eff := FlagsRound(live);
      (live.n ==> eff != None0) && (live.z ==> eff.HasZ()) && (live.c ==> eff.HasC()) && (live.v ==> eff == ToV)
  {}
  lemma ViewCpsr(h: Host) ensures View(h).cpsr == h.r8 {}

  /** What ADD, SUB, CMP, CMN and NEG leave for R1 and R2. */
  lemma SumAgrees(live: Live, sub: bool, rd: nat, write: bool, h: Host)
    requires rd < 16
    ensures var c, s := AddSubCode(sub, rd, write, live), SumOf(sub, h.r1, h.r2);
      Straight(c) && Agrees(live, View(h), View(Run(c, h)),
          SetSum(if write then View(h).(r := View(h).r[rd := s.res]) else View(h), s))
  {
    var s := SumOf(sub, h.r1, h.r2);
    StraightAlu(sub, rd, write, live);
    AddSubCorrect(sub, rd, write, live, h);
    RoundIs(live);
    CommitAgrees(live, FlagsRound(live), View(h), write, rd, s.res, s.c, s.v, s.c, s.v);
    hide Step, Run, Exec, AddSubCode, SumOf, Agrees, Commit, SetNzcv, View, FlagsRound;
  }
  lemma CarryAgrees(live: Live, sub: bool, rd: nat, h: Host)
    requires rd < 16
    ensures var c, s := CarryCode(sub, rd, live), CarrySum(sub, h.r1, h.r2, C(h.r8));
      Straight(c) && Agrees(live, View(h), View(Run(c, h)), SetSum(View(h).(r := View(h).r[rd := s.res]), s))
  {
    var s := CarrySum(sub, h.r1, h.r2, C(h.r8));
    StraightAlu(sub, rd, true, live);
    CarryCorrect(sub, rd, live, h);
    RoundIs(live); ViewCpsr(h);
    CommitAgrees(live, FlagsRound(live), View(h), true, rd, s.res, s.c, s.v, s.c, s.v);
    hide Step, Run, Exec, CarryCode, CarrySum, Agrees, Commit, SetNzcv, View, C, FlagsRound;
  }

  predicate Loads(x: Op, y: Op, a: Word, b: Word, h: Host) {
    !IsBranch(x) && !IsBranch(y) && Step(x, h) == h.(r1 := a) && Step(y, h.(r1 := a)) == h.(r1 := a, r2 := b)
  }

  lemma SumCommit(live: Live, sub: bool, rd: nat, write: bool, x: Op, y: Op, a: Word, b: Word, h: Host)
    requires rd < 16 && Loads(x, y, a, b, h)
    ensures var o, s := Exec([x, y] + AddSubCode(sub, rd, write, live), h), SumOf(sub, a, b);
      o.Some? && Agrees(live, View(h), View(o.value),
          SetSum(if write then View(h).(r := View(h).r[rd := s.res]) else View(h), s))
  {
    SumAgrees(live, sub, rd, write, h.(r1 := a, r2 := b));
    PairRun(x, y, a, b, AddSubCode(sub, rd, write, live), h);
    hide Step, Run, Exec, AddSubCode, SumOf, Agrees, SetSum, View, Straight, Loads;
  }
  lemma CarryCommit(live: Live, sub: bool, rd: nat, x: Op, y: Op, a: Word, b: Word, h: Host)
    requires rd < 16 && Loads(x, y, a, b, h)
    ensures var o, s := Exec([x, y] + CarryCode(sub, rd, live), h), CarrySum(sub, a, b, C(h.r8));
      o.Some? && Agrees(live, View(h), View(o.value), SetSum(View(h).(r := View(h).r[rd := s.res]), s))
  {
    CarryAgrees(live, sub, rd, h.(r1 := a, r2 := b));
    PairRun(x, y, a, b, CarryCode(sub, rd, live), h);
    hide Step, Run, Exec, CarryCode, CarrySum, Agrees, SetSum, View, Straight, Loads, C;
  }

  /** N and Z of a logical result, C and V untouched. */
  lemma NzCommit(live: Live, write: bool, rd: nat, h: Host)
    requires rd < 16
    ensures var t := TailCode(write, rd, R4, R4, FlagsRound(NzOnly(live)));
      Straight(t) && Agrees(live, View(h), View(Run(t, h)),
          SetNz(if write then View(h).(r := View(h).r[rd := h.r1]) else View(h), h.r1))
  {
    var eff := FlagsRound(NzOnly(live));
    StraightFlags(R4, R4, eff);
    TailRun(write, rd, R4, R4, eff, h);
    var g := View(h);
    CommitAgrees(live, eff, g, write, rd, h.r1, C(g.cpsr), V(g.cpsr), h.r4 == 1, h.r4 == 1);
    hide Run, Step, SetFlagsCode, Agrees, Commit, C, V;
  }

  lemma NegSum(b: Word)
    ensures AddC(NotW(b), 0, 1) == SumOf(true, 0, b)
  {
    var s := SumOf(true, 0, b);
    OverflowSigns(NotW(b), 0, s.res); OverflowSigns(0, NotW(b), s.res);
    hide AddV;
  }

  predicate Correct(live: Live, h: Host, e: Emitted, want: ThumbOut) {
    var o := Exec(e.code, h);
    o.Some? &&
    match want
    case Falls(g) => !e.exits && Agrees(live, View(h), View(o.value), g)
    case Jumps(g) => e.exits && View(o.value) == g && o.value.r4 == g.r[15] && o.value.r1 == 1
  }

  lemma LoadPair(rd: nat, rs: nat, h: Host)
    requires rd < 16 && rs < 16
    ensures Step(LoadGreg(rd, R1), h) == h.(r1 := View(h).r[rd])
    ensures var h1 := h.(r1 := View(h).r[rd]); Step(LoadGreg(rs, R2), h1) == h1.(r2 := View(h).r[rs])
    ensures Step(LoadGreg(rs, R2), h.(r1 := 0)) == h.(r1 := 0, r2 := View(h).r[rs])
    ensures Step(LoadGreg(rs, R2), h) == h.(r2 := View(h).r[rs])
    ensures !IsBranch(LoadGreg(rd, R1)) && !IsBranch(LoadGreg(rs, R2))
  {
    LoadGregStep(rd, R1, h); LoadGregStep(rs, R2, h.(r1 := View(h).r[rd])); LoadGregStep(rs, R2, h.(r1 := 0));
    LoadGregStep(rs, R2, h);
    hide Step;
    assert View(h.(r1 := View(h).r[rd])) == View(h) && View(h.(r1 := 0)) == View(h);
  }

  lemma Nothing(live: Live, h: Host, want: Guest)
    requires Agrees(live, View(h), View(h), want)
    ensures Correct(live, h, Emitted([], false), Falls(want))
  {}
  /** A compare whose flags are all dead may be dropped. */
  lemma DeadCompare(g: Guest, s: Sum)
    ensures Agrees(NoFlags(), g, g, SetSum(g, s))
  {
    Unpack(g.cpsr);
    assert Commit(g, false, 0, None0, s.res, s.c, s.v) == g;
    CommitAgrees(NoFlags(), None0, g, false, 0, s.res, s.c, s.v, s.c, s.v);
  }
  lemma DeadTest(g: Guest, res: Word)
    ensures Agrees(NoFlags(), g, g, SetNz(g, res))
  { DeadCompare(g, Sum(res, C(g.cpsr), V(g.cpsr))); }

  lemma MovImmCorrect(rd: nat, imm: Word, live: Live, h: Host)
    requires rd < 16
    ensures Correct(live, h, Emitted([Const(imm, R1)] + TailCode(true, rd, R4, R4, FlagsRound(NzOnly(live))), false),
                    Falls(SetNz(View(h).(r := View(h).r[rd := imm]), imm)))
  {
    var h1 := h.(r1 := imm);
    var t := TailCode(true, rd, R4, R4, FlagsRound(NzOnly(live)));
    NzCommit(live, true, rd, h1);
    assert Step(Const(imm, R1), h) == h1 && View(h1) == View(h);
    hide Step, Run, Exec, TailCode, Agrees, View, SetNz;
    assert Straight([Const(imm, R1)] + t);
    ExecStraight([Const(imm, R1)] + t, h);
    TailStore(Const(imm, R1), t, h);
  }

  lemma ConstLoads(rd: nat, imm: Word, h: Host)
    requires rd < 16
    ensures Loads(LoadGreg(rd, R1), Const(imm, R2), View(h).r[rd], imm, h)
    ensures Loads(MovI(0, R1), Const(imm, R2), 0, imm, h)
  { LoadPair(rd, rd, h); ZeroImm(); hide LoadGreg; }
  lemma RegLoads(rd: nat, rs: nat, h: Host)
    requires rd < 16 && rs < 16
    ensures Loads(LoadGreg(rd, R1), LoadGreg(rs, R2), View(h).r[rd], View(h).r[rs], h)
    ensures Loads(MovI(0, R1), LoadGreg(rs, R2), 0, View(h).r[rs], h)
  { LoadPair(rd, rs, h); ZeroImm(); hide LoadGreg, View; }

  lemma ImmCorrect(sub: nat, rd: nat, imm: Word, live: Live, h: Host)
    requires 1 <= sub < 4 && rd < 16
    ensures var e := if sub == 1 && live == NoFlags() then []
        else [LoadGreg(rd, R1), Const(imm, R2)] + AddSubCode(sub != 2, rd, sub != 1, live);
      var s := SumOf(sub != 2, View(h).r[rd], imm);
      Correct(live, h, Emitted(e, false), Falls(SetSum(if sub != 1 then View(h).(r := View(h).r[rd := s.res]) else View(h), s)))
  {
    var s := SumOf(sub != 2, View(h).r[rd], imm);
    if sub == 1 && live == NoFlags() { DeadCompare(View(h), s); Nothing(live, h, SetSum(View(h), s)); }
    else {
      ConstLoads(rd, imm, h);
      hide Step, Run, Exec, AddSubCode, Agrees, View, SetSum, SumOf, LoadGreg;
      SumCommit(live, sub != 2, rd, sub != 1, LoadGreg(rd, R1), Const(imm, R2), View(h).r[rd], imm, h);
    }
  }

  lemma ThreeCorrect(rd: nat, rn: nat, isSub: bool, isImm: bool, arg: nat, live: Live, h: Host)
    requires rd < 16 && rn < 16 && arg < 8
    ensures var b := if isImm then arg else View(h).r[arg];
      var s := SumOf(isSub, View(h).r[rn], b);
      Correct(live, h, Emitted([LoadGreg(rn, R1), if isImm then Const(arg, R2) else LoadGreg(arg, R2)]
                               + AddSubCode(isSub, rd, true, live), false),
              Falls(SetSum(View(h).(r := View(h).r[rd := s.res]), s)))
  {
    ConstLoads(rn, arg, h); RegLoads(rn, arg, h);
    hide Step, Run, Exec, AddSubCode, Agrees, View, SetSum, SumOf, LoadGreg, Loads;
    SumCommit(live, isSub, rd, true, LoadGreg(rn, R1), if isImm then Const(arg, R2) else LoadGreg(arg, R2),
              View(h).r[rn], if isImm then arg else View(h).r[arg], h);
  }

  lemma LogicOpsRun(alu: nat, h: Host)
    requires ThumbLogic(alu)
    ensures var h' := Run(LogicOps(alu), h);
      Straight(LogicOps(alu)) && SameGuest(h, h')
      && h'.r1 == (if alu == 0 || alu == 8 then AndW(h.r1, h.r2) else if alu == 1 then XorW(h.r1, h.r2)
                   else if alu == 12 then OrW(h.r1, h.r2) else if alu == 13 then MulW(h.r1, h.r2)
                   else if alu == 14 then AndW(h.r1, NotW(h.r2)) else NotW(h.r2))
  {
    hide Run, Step, ComputeCode, AndW, OrW, XorW, NotW, MulW, AddV, SubV, Straight;
    if alu == 13 { MulRun(h); MulStraight(); }
    else { ComputeRun(LogicOp(alu), false, 0, h); }
  }
  function LogicOp(alu: nat): nat {
    if alu == 0 || alu == 8 then 0 else if alu == 1 then 1 else if alu == 12 then 12 else if alu == 14 then 14 else 15
  }
  lemma MulStraight() ensures Straight([Mult(MULL, R2, R1), StsMacl(R1)]) {}
  lemma MulRun(h: Host)
    ensures Run([Mult(MULL, R2, R1), StsMacl(R1)], h) == h.(macl := MulW(h.r1, h.r2), r1 := MulW(h.r1, h.r2))
  {
    assert h.r2 * h.r1 == h.r1 * h.r2;
    hide Run;
    Run2(Mult(MULL, R2, R1), StsMacl(R1), h);
  }

  lemma ThreeParts(a: seq<Op>, b: seq<Op>, c: seq<Op>, h: Host)
    requires Straight(a) && Straight(b) && Straight(c)
    ensures Exec(a + (b + c), h) == Some(Run(c, Run(b, Run(a, h))))
  {
    hide Step, Run, Exec;
    ExecStraight(a + (b + c), h); RunSplit(a, b + c, h); RunSplit(b, c, Run(a, h));
  }
  lemma LogicLoad(alu: nat, rd: nat, rs: nat, h: Host) returns (loads: seq<Op>, h1: Host)
    requires rd < 16 && rs < 16
    ensures loads == if alu == 15 then [LoadGreg(rs, R2)] else [LoadGreg(rd, R1), LoadGreg(rs, R2)]
    ensures Straight(loads) && Run(loads, h) == h1 && SameGuest(h, h1) && h1.r2 == View(h).r[rs]
    ensures alu == 15 || h1.r1 == View(h).r[rd]
  {
    var a, b := View(h).r[rd], View(h).r[rs];
    loads := if alu == 15 then [LoadGreg(rs, R2)] else [LoadGreg(rd, R1), LoadGreg(rs, R2)];
    h1 := if alu == 15 then h.(r2 := b) else h.(r1 := a, r2 := b);
    LoadPair(rd, rs, h);
    LogicLoads(loads, h, h1);
    hide Step, Run, View, LoadGreg;
  }
  lemma LogicCorrect4(alu: nat, rd: nat, rs: nat, live: Live, h: Host)
    requires ThumbLogic(alu) && rd < 16 && rs < 16 && !(alu == 8 && live == NoFlags())
    ensures Correct(live, h, AluCode(alu, rd, rs, live).value,
                    Falls(ThumbAlu(alu, rd, View(h).r[rd], View(h).r[rs], Bit(C(h.r8)), View(h))))
  {
    hide Step, Run, Exec, TailCode, Agrees, View, SetNz, LoadGreg, LogicOps, AndW, OrW, XorW, NotW, MulW, C, Straight;
    var loads, h1 := LogicLoad(alu, rd, rs, h);
    var t := TailCode(alu != 8, rd, R4, R4, FlagsRound(NzOnly(live)));
    LogicOpsRun(alu, h1);
    var h2 := Run(LogicOps(alu), h1);
    ViewOf(h, h2);
    NzCommit(live, alu != 8, rd, h2);
    ThreeParts(loads, LogicOps(alu), t, h);
  }
  lemma ViewOf(h1: Host, h2: Host) requires SameGuest(h1, h2) ensures View(h2) == View(h1) {}
  lemma LogicLoads(loads: seq<Op>, h: Host, h1: Host)
    requires (|loads| == 1 && Step(loads[0], h) == h1) || (|loads| == 2 && Step(loads[1], Step(loads[0], h)) == h1)
    ensures Run(loads, h) == h1
  {
    hide Step, Run;
    if |loads| == 1 { Run1(loads[0], h); assert loads == [loads[0]]; }
    else { Run2(loads[0], loads[1], h); assert loads == [loads[0], loads[1]]; }
  }

  lemma AluCorrect(alu: nat, rd: nat, rs: nat, live: Live, h: Host)
    requires alu < 16 && rd < 16 && rs < 16 && AluCode(alu, rd, rs, live).Some?
    ensures Correct(live, h, AluCode(alu, rd, rs, live).value,
                    Falls(ThumbAlu(alu, rd, View(h).r[rd], View(h).r[rs], Bit(C(h.r8)), View(h))))
  {
    var g := View(h);
    var a, b := g.r[rd], g.r[rs];
    RegLoads(rd, rs, h);
    NegSum(b);
    if alu == 8 && live == NoFlags() { DeadTest(g, AndW(a, b)); Nothing(live, h, SetNz(g, AndW(a, b))); }
    else if 10 <= alu <= 11 && live == NoFlags() {
      DeadCompare(g, SumOf(alu != 11, a, b)); Nothing(live, h, SetSum(g, SumOf(alu != 11, a, b)));
    }
    else if ThumbLogic(alu) { LogicCorrect4(alu, rd, rs, live, h); }
    else {
      hide Step, Run, Exec, AddSubCode, CarryCode, Agrees, View, SetSum, LoadGreg, AddC, NotW, Loads, C;
      if alu == 5 || alu == 6 {
        CarryCommit(live, alu == 6, rd, LoadGreg(rd, R1), LoadGreg(rs, R2), a, b, h);
      } else {
        SumCommit(live, alu != 11, rd, alu == 9, if alu == 9 then MovI(0, R1) else LoadGreg(rd, R1), LoadGreg(rs, R2),
                  if alu == 9 then 0 else a, b, h);
      }
    }
  }

  lemma SourceLoads(rs: nat, pc: Word, h: Host)
    requires rs < 16
    ensures var v := if rs == 15 then AddW(pc, 4) else View(h).r[rs];
      (forall n | n in {R0, R1, R2} :: !IsBranch(SourceOp(rs, pc, n)) && Step(SourceOp(rs, pc, n), h) == Set(h, n, v))
  {
    if rs != 15 { LoadGregStep(rs, R0, h); LoadGregStep(rs, R1, h); LoadGregStep(rs, R2, h); }
  }
  lemma SourcePair(rd: nat, rs: nat, pc: Word, h: Host)
    requires rd < 16 && rs < 16
    ensures Loads(SourceOp(rd, pc, R1), SourceOp(rs, pc, R2), if rd == 15 then AddW(pc, 4) else View(h).r[rd],
                  if rs == 15 then AddW(pc, 4) else View(h).r[rs], h)
    ensures Loads(LoadGreg(rd, R1), SourceOp(rs, pc, R2), View(h).r[rd], if rs == 15 then AddW(pc, 4) else View(h).r[rs], h)
  {
    SourceLoads(rd, pc, h); LoadPair(rd, rd, h);
    var a := if rd == 15 then AddW(pc, 4) else View(h).r[rd];
    assert View(h.(r1 := a)) == View(h) && View(h.(r1 := View(h).r[rd])) == View(h);
    SourceLoads(rs, pc, h.(r1 := a)); SourceLoads(rs, pc, h.(r1 := View(h).r[rd]));
    hide SourceOp, LoadGreg, Step, View, AddW;
  }

  lemma JumpRun(h: Host)
    ensures var h', t := Run(JumpTail(), h), AndW(h.r0, 0xFFFF_FFFE);
      View(h') == View(h).(r := View(h).r[15 := t]) && h'.r4 == t && h'.r1 == 1 && Straight(JumpTail())
  {
    ZeroImm();
    assert SExt8(-2) == 0xFFFF_FFFE;
    hide Run, AndW, SExt8;
    Run5(MovI(-2, R2), Bin(AND, R2, R0), StG(R0, 15), Bin(MOV, R0, R4), MovI(1, R1), h);
    var t := AndW(h.r0, 0xFFFF_FFFE);
    assert h.file[15 := t][0 := h.r11] == h.file[0 := h.r11][15 := t];
  }

  lemma JumpCorrect(op: nat, rs: nat, pc: Word, live: Live, h: Host)
    requires (op == 0 || op == 2) && rs < 16
    ensures var b := if rs == 15 then AddW(pc, 4) else View(h).r[rs];
      var res := if op == 0 then AddW(AddW(pc, 4), b) else b;
      Correct(live, h, HighCode(op, 15, rs, pc, live).value,
          Jumps(View(h).(r := View(h).r[15 := AndW(res, 0xFFFF_FFFE)])))
  {
    var b := if rs == 15 then AddW(pc, 4) else View(h).r[rs];
    var front := if op == 0 then [Const(AddW(pc, 4), R0), SourceOp(rs, pc, R2),
        Bin(ADD, R2, R0)] else [SourceOp(rs, pc, R0)];
    var h1 := Run(front, h);
    assert Straight(front) && SameGuest(h, h1) && h1.r0 == (if op == 0 then AddW(AddW(pc, 4), b) else b) by {
      if op == 0 {
        JumpSum(rs, pc, h);
      } else {
        SourceLoads(rs, pc, h); Run1(SourceOp(rs, pc, R0), h); hide SourceOp, AddW;
      }
    }
    JumpRun(h1); ViewOf(h, h1);
    hide Step, Run, Exec, JumpTail, View, SourceOp, AddW, AndW;
    assert Straight(front + JumpTail());
    ExecStraight(front + JumpTail(), h);
    RunSplit(front, JumpTail(), h);
  }
  lemma JumpSum(rs: nat, pc: Word, h: Host)
    requires rs < 16
    ensures var b := if rs == 15 then AddW(pc, 4) else View(h).r[rs];
      var c := [Const(AddW(pc, 4), R0), SourceOp(rs, pc, R2), Bin(ADD, R2, R0)];
      Straight(c) && Run(c, h) == h.(r0 := AddW(AddW(pc, 4), b), r2 := b)
  {
    var h1 := h.(r0 := AddW(pc, 4));
    SourceLoads(rs, pc, h1);
    assert View(h1) == View(h);
    hide Run, SourceOp, View, AddW;
    Run3(Const(AddW(pc, 4), R0), SourceOp(rs, pc, R2), Bin(ADD, R2, R0), h);
  }

  /** What the C helper does for format 5. */
  function HighOut(op: nat, rd: nat, rs: nat, pc: Word, g: Guest): ThumbOut
    requires rd < 16 && rs < 16
  {
    var a := if rd == 15 then AddW(pc, 4) else g.r[rd];
    var b := if rs == 15 then AddW(pc, 4) else g.r[rs];
    if op == 1 then Falls(SetSum(g, SumOf(true, a, b)))
    else
      var res := if op == 0 then AddW(a, b) else b;
      if rd == 15 then Jumps(g.(r := g.r[15 := AndW(res, 0xFFFF_FFFE)])) else Falls(g.(r := g.r[rd := res]))
  }

  lemma HighCorrect(op: nat, rd: nat, rs: nat, pc: Word, live: Live, h: Host)
    requires op < 3 && rd < 16 && rs < 16
    ensures Correct(live, h, HighCode(op, rd, rs, pc, live).value, HighOut(op, rd, rs, pc, View(h)))
  {
    var g := View(h);
    var a := if rd == 15 then AddW(pc, 4) else g.r[rd];
    var b := if rs == 15 then AddW(pc, 4) else g.r[rs];
    SourcePair(rd, rs, pc, h);
    if op == 1 && live == NoFlags() {
      DeadCompare(g, SumOf(true, a, b)); Nothing(live, h, SetSum(g, SumOf(true, a, b)));
    }
    else if rd == 15 && op != 1 {
      JumpCorrect(op, rs, pc, live, h); hide Correct, JumpTail, View, SourceOp, AddW, AndW;
    }
    else if op == 2 { MoveCorrect(rd, rs, pc, live, h); hide Correct, View, SourceOp, AddW; }
    else {
      hide Step, Run, Exec, AddSubCode, Agrees, View, SetSum, LoadGreg, SourceOp, AddW, Loads, SumOf;
      if op == 1 { SumCommit(live, true, 0, false, SourceOp(rd, pc, R1), SourceOp(rs, pc, R2), a, b, h); }
      else {
        PlainAdd(live, rd, LoadGreg(rd, R1), SourceOp(rs, pc, R2), a, b, h);
      }
    }
  }
  /** ADD without flags. */
  lemma PlainAdd(live: Live, rd: nat, x: Op, y: Op, a: Word, b: Word, h: Host)
    requires rd < 16 && Loads(x, y, a, b, h)
    ensures var o := Exec([x, y] + AddSubCode(false, rd, true, NoFlags()), h);
      o.Some? && Agrees(live, View(h), View(o.value), View(h).(r := View(h).r[rd := AddW(a, b)]))
  {
    var c := AddSubCode(false, rd, true, NoFlags());
    var h2 := h.(r1 := a, r2 := b);
    StraightAlu(false, rd, true, NoFlags());
    AddSubCorrect(false, rd, true, NoFlags(), h2);
    PairRun(x, y, a, b, c, h);
    SumFacts(a, b);
    CommitNothing(live, View(h), true, rd, AddW(a, b), SumOf(false, a, b).c, SumOf(false, a, b).v);
    hide Step, Run, Exec, AddSubCode, Agrees, View, Loads, SumOf, AddW, Commit;
  }
  lemma MoveCorrect(rd: nat, rs: nat, pc: Word, live: Live, h: Host)
    requires rd < 16 && rs < 16
    ensures var b := if rs == 15 then AddW(pc, 4) else View(h).r[rs];
      Correct(live, h, Emitted([SourceOp(rs, pc, R1), StoreGreg(R1, rd)], false),
          Falls(View(h).(r := View(h).r[rd := b])))
  {
    var b := if rs == 15 then AddW(pc, 4) else View(h).r[rs];
    SourceLoads(rs, pc, h);
    var h1 := h.(r1 := b);
    StoreGregStep(R1, rd, h1);
    assert View(h1) == View(h) && h1.r8 == h.r8;
    assert !IsBranch(StoreGreg(R1, rd));
    KeepsScratch(Step(StoreGreg(R1, rd), h1), h1);
    CommitNothing(live, View(h), true, rd, b, false, false);
    Unpack(h.r8);
    hide Step, Run, Exec, View, SourceOp, StoreGreg, AddW, N, Z, C, V, Low, Pack;
    ExecStraight([SourceOp(rs, pc, R1), StoreGreg(R1, rd)], h);
    Run2(SourceOp(rs, pc, R1), StoreGreg(R1, rd), h);
  }

  lemma HiFields(opcode: Word)
    ensures var hi, sub, op := (opcode / 256) % 256, (opcode / 2048) % 4, (opcode / 256) % 4;
      sub == (hi / 8) % 4 && op == hi % 4
  {
    DivDiv(opcode, 256, 8);
    ByteSplit(opcode / 256);
  }
  lemma ByteSplit(y: nat)
    ensures (y / 8) % 4 == ((y % 256) / 8) % 4 && y % 4 == (y % 256) % 4
  {
    var h: int, l: int := y / 256, y % 256;
    ModUnique(y, 4, 64 * h + l / 4, l % 4);
    ModUnique(y, 8, 32 * h + l / 8, l % 8);
    ModUnique(y / 8, 4, 8 * h + (l / 8) / 4, (l / 8) % 4);
  }

  /** The C helper's result, per format. */
  lemma ThumbShape(opcode: Word, pc: Word, g: Guest)
    ensures 0x20 <= (opcode / 256) % 256 <= 0x27 ==>
      ThumbDp(opcode, pc, g) == Falls(SetNz(g.(r := g.r[(opcode / 256) % 8 := opcode % 256]), opcode % 256))
    ensures 0x28 <= (opcode / 256) % 256 <= 0x3F ==> (opcode / 2048) % 4 != 0
    ensures 0x28 <= (opcode / 256) % 256 <= 0x3F ==>
      var rd, sub := (opcode / 256) % 8, (opcode / 2048) % 4;
      var s := SumOf(sub != 2, g.r[rd], opcode % 256);
      ThumbDp(opcode, pc, g) == Falls(SetSum(if sub != 1 then g.(r := g.r[rd := s.res]) else g, s))
    ensures 0x18 <= (opcode / 256) % 256 <= 0x1F ==>
      var rd, arg := opcode % 8, (opcode / 64) % 8;
      var s := SumOf((opcode / 512) % 2 == 1, g.r[(opcode / 8) % 8],
          if (opcode / 1024) % 2 == 1 then arg else g.r[arg]);
      ThumbDp(opcode, pc, g) == Falls(SetSum(g.(r := g.r[rd := s.res]), s))
    ensures 0x40 <= (opcode / 256) % 256 <= 0x43 ==>
      ThumbDp(opcode, pc, g)
        == Falls(ThumbAlu((opcode / 64) % 16, opcode % 8, g.r[opcode % 8], g.r[(opcode / 8) % 8], Bit(C(g.cpsr)), g))
    ensures 0x44 <= (opcode / 256) % 256 <= 0x46 ==> (opcode / 256) % 4 < 3
    ensures 0x44 <= (opcode / 256) % 256 <= 0x46 ==>
      ThumbDp(opcode, pc, g)
        == HighOut((opcode / 256) % 4, opcode % 8 + (if (opcode / 128) % 2 == 1 then 8 else 0), (opcode / 8) % 16, pc,
            g)
  {
    HiFields(opcode);
    hide AddC, NotW, SetNzcv, SetNz, ThumbAlu, C, AndW, AddW;
  }
  lemma MoveR8(pc: Word, g: Guest)
    ensures ThumbDp(0x46C0, pc, g) == Falls(g)
  {
    hide AddC, NotW, SetNzcv, SetNz, ThumbAlu, C, AndW, AddW;
    assert g.r[8 := g.r[8]] == g.r;
  }
  lemma SelfAgrees(live: Live, g: Guest) ensures Agrees(live, g, g, g) {}

  /** The code emitted for an accepted Thumb opcode does what the C helper does. */
  lemma ThumbDpCorrect(opcode: Word, pc: Word, live: Live, h: Host)
    requires ThumbDpNative(opcode, pc, live).Some?
    ensures Correct(live, h, ThumbDpNative(opcode, pc, live).value, ThumbDp(opcode, pc, View(h)))
  {
    var hi := (opcode / 256) % 256;
    ThumbShape(opcode, pc, View(h));
    if opcode == 0x46C0 {
      MoveR8(pc, View(h)); SelfAgrees(live, View(h)); Nothing(live, h, View(h)); hide ThumbDp, View, Agrees;
    }
    else {
      hide Correct, View, AddSubCode, AluCode, HighCode, HighOut, TailCode, SumOf, SetSum, SetNz, LoadGreg, ThumbDp,
           ThumbAlu, C, NotW, AddC;
      if 0x20 <= hi <= 0x27 { MovImmCorrect((opcode / 256) % 8, opcode % 256, live, h); }
      else if 0x28 <= hi <= 0x3F { ImmCorrect((opcode / 2048) % 4, (opcode / 256) % 8, opcode % 256, live, h); }
      else if 0x18 <= hi <= 0x1F {
        ThreeCorrect(opcode % 8, (opcode / 8) % 8, (opcode / 512) % 2 == 1, (opcode / 1024) % 2 == 1, (opcode / 64) % 8,
            live, h);
      }
      else if 0x40 <= hi <= 0x43 { ViewCpsr(h); AluCorrect((opcode / 64) % 16, opcode % 8, (opcode / 8) % 8, live, h); }
      else {
        HighCorrect((opcode / 256) % 4, opcode % 8 + (if (opcode / 128) % 2 == 1 then 8 else 0), (opcode / 8) % 16, pc,
            live, h);
      }
    }
  }
}
