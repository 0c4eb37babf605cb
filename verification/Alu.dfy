/** SH-4 recipes for NZCV materialization and the add/subtract family. */
module Alu {
  import opened Words
  import opened Guest
  import opened Sh4

  /** Live-flag mask of one guest instruction (N=8, Z=4, C=2, V=1). */
  datatype Live = Live(n: bool, z: bool, c: bool, v: bool)

  /** A mask rounded up to a top-contiguous set: 0, 8, 0xC, 0xE or 0xF. */
  datatype Eff = None0 | ToN | ToZ | ToC | ToV {
    predicate HasZ() { ToZ? || ToC? || ToV? }
    predicate HasC() { ToC? || ToV? }
  }

  function FlagsRound(live: Live): Eff {
    if live.v then ToV else if live.c then ToC else if live.z then ToZ
    else if live.n then ToN else None0
  }

  function NzOnly(live: Live): Live { Live(live.n, live.z, false, false) }

  /** Guest registers and CPSR as generated code holds them. */
  function View(h: Host): Guest { Guest(h.file[0 := h.r11], h.r8) }

  function LoadGreg(idx: nat, n: Reg): Op { if idx == 0 then Bin(MOV, R11, n) else LdG(idx, n) }
  function StoreGreg(m: Reg, idx: nat): Op { if idx == 0 then Bin(MOV, m, R11) else StG(m, idx) }

  predicate Scratch(r: Reg) { r != R8 && r != R11 }

  lemma LoadGregStep(idx: nat, n: Reg, h: Host)
    requires idx < 16 && Scratch(n)
    ensures Step(LoadGreg(idx, n), h) == Set(h, n, View(h).r[idx])
  {}

  lemma StoreGregStep(m: Reg, idx: nat, h: Host)
    requires idx < 16 && Scratch(m)
    ensures var h' := Step(StoreGreg(m, idx), h);
      View(h') == View(h).(r := View(h).r[idx := Get(h, m)])
      && (h' == h.(r11 := h'.r11) || h' == h.(file := h'.file))
  {
    var h' := Step(StoreGreg(m, idx), h);
    if idx == 0 {
      assert h.file[0 := Get(h, m)] == h.file[0 := h.r11][0 := Get(h, m)];
    } else {
      assert h.file[idx := Get(h, m)][0 := h.r11] == h.file[0 := h.r11][idx := Get(h, m)];
    }
  }

  // ---- flag write ----------------------------------------------------------

  function DropTop(eff: Eff): seq<Op> {
    match eff
    case ToN => [Un(SHLL, R2)]
    case ToZ => [Un(SHLL2, R2)]
    case ToC => [Un(SHLL2, R2), Un(SHLL, R2)]
    case _ => [Un(SHLL2, R2), Un(SHLL2, R2)]
  }
  function RotIn(r: Reg): seq<Op> { [Bin(MOV, r, R3), Un(SHLR, R3), Un(ROTCR, R2)] }
  function RotZ(): seq<Op> { [Test(TST, R1, R1), Un(ROTCR, R2)] }
  function RotN(): seq<Op> { [Bin(MOV, R1, R3), Un(SHLL, R3), Un(ROTCR, R2), Bin(MOV, R2, R8)] }

  /** sh4g_set_flags with the result in R1. */
  function SetFlagsCode(rc: Reg, rv: Reg, eff: Eff): seq<Op> {
    if eff == None0 then [] else
    [Bin(MOV, R8, R2)] + DropTop(eff)
    + (if eff == ToV then RotIn(rv) else [])
    + (if eff.HasC() then RotIn(rc) else [])
    + (if eff.HasZ() then RotZ() else [])
    + RotN()
  }

  function NewCpsr(cpsr: Word, eff: Eff, n: bool, z: bool, c: bool, v: bool): Word {
    Pack(Low(cpsr), if eff == None0 then N(cpsr) else n, if eff.HasZ() then z else Z(cpsr),
         if eff.HasC() then c else C(cpsr), if eff == ToV then v else V(cpsr))
  }

  lemma ShlDrop(x: Word)
    ensures Shl2(Shl2(x)) == 16 * (x % 0x1000_0000)
    ensures Shl1(Shl2(x)) == 8 * (x % 0x2000_0000)
    ensures Shl2(x) == 4 * (x % 0x4000_0000)
    ensures Shl1(x) == 2 * (x % 0x8000_0000)
  {
    hide Shl1, Shl2;
    ShlDrop2(x); ShlDrop2(Shl2(x));
    FourMod(x);
  }
  lemma FourMod(x: Word)
    ensures (4 * (x % 0x4000_0000)) % 0x4000_0000 == 4 * (x % 0x1000_0000)
    ensures (4 * (x % 0x4000_0000)) % 0x8000_0000 == 4 * (x % 0x2000_0000)
  { DropTwo(x, 0x1000_0000, 4); DropTwo(x, 0x2000_0000, 2); }
  lemma DropTwo(x: Word, p: nat, k: nat)
    requires (p == 0x1000_0000 && k == 4) || (p == 0x2000_0000 && k == 2)
    ensures (4 * (x % 0x4000_0000)) % (4 * p) == 4 * (x % p)
  {
    var y: int, h: int := x % 0x4000_0000, x / 0x4000_0000;
    var q: int, r: int := y / p, y % p;
    ModUnique(x, p, k * h + q, r);
    ModUnique(4 * y, 4 * p, q, 4 * r);
  }
  lemma ShlDrop2(x: Word)
    ensures Shl2(x) == 4 * (x % 0x4000_0000) && Shl1(x) == 2 * (x % 0x8000_0000)
  {
    ModUnique(4 * x, 0x1_0000_0000, x / 0x4000_0000, 4 * (x % 0x4000_0000));
    ModUnique(2 * x, 0x1_0000_0000, x / 0x8000_0000, 2 * (x % 0x8000_0000));
  }

  lemma PackV(x: Word, n: bool, z: bool, c: bool, v: bool)
    ensures RotcrOf(n, RotcrOf(z, RotcrOf(c, RotcrOf(v, Shl2(Shl2(x)))))) == NewCpsr(x, ToV, n, z, c, v)
  {
    ShlDrop(x);
    var r1 := RotcrOf(v, Shl2(Shl2(x)));
    assert r1 == 8 * (x % 0x1000_0000) + Flag(v, 0x8000_0000);
    var r2 := RotcrOf(c, r1);
    assert r2 == 4 * (x % 0x1000_0000) + Flag(v, 0x4000_0000) + Flag(c, 0x8000_0000);
    var r3 := RotcrOf(z, r2);
    assert r3 == 2 * (x % 0x1000_0000) + Flag(v, 0x2000_0000) + Flag(c, 0x4000_0000) + Flag(z, 0x8000_0000);
  }
  lemma Tops(x: Word)
    ensures x % 0x2000_0000 == Low(x) + Flag(V(x), 0x1000_0000)
    ensures x % 0x4000_0000 == Low(x) + Flag(V(x), 0x1000_0000) + Flag(C(x), 0x2000_0000)
    ensures x % 0x8000_0000 == Low(x) + Flag(V(x), 0x1000_0000) + Flag(C(x), 0x2000_0000) + Flag(Z(x), 0x4000_0000)
  { TopV(x); TopC(x); TopZ(x); hide Low, V, C, Z; }
  lemma TopV(x: Word) ensures x % 0x2000_0000 == Low(x) + Flag(V(x), 0x1000_0000) {}
  lemma TopC(x: Word) ensures x % 0x4000_0000 == x % 0x2000_0000 + Flag(C(x), 0x2000_0000) {}
  lemma TopZ(x: Word) ensures x % 0x8000_0000 == x % 0x4000_0000 + Flag(Z(x), 0x4000_0000) {}

  lemma PackC(x: Word, n: bool, z: bool, c: bool, v: bool)
    ensures RotcrOf(n, RotcrOf(z, RotcrOf(c, Shl1(Shl2(x))))) == NewCpsr(x, ToC, n, z, c, v)
  {
    ShlDrop(x); Tops(x);
    PackTwo(n, z, x % 0x2000_0000, c);
  }
  lemma PackTwo(n: bool, z: bool, y: Word, c: bool)
    requires y < 0x2000_0000
    ensures RotcrOf(n, RotcrOf(z, RotcrOf(c, 8 * y)))
      == y + Flag(c, 0x2000_0000) + Flag(z, 0x4000_0000) + Flag(n, 0x8000_0000)
  {
    var r2 := RotcrOf(c, 8 * y);
    assert r2 == 4 * y + Flag(c, 0x8000_0000);
    var r3 := RotcrOf(z, r2);
    assert r3 == 2 * y + Flag(c, 0x4000_0000) + Flag(z, 0x8000_0000);
  }
  lemma PackZ(x: Word, n: bool, z: bool, c: bool, v: bool)
    ensures RotcrOf(n, RotcrOf(z, Shl2(x))) == NewCpsr(x, ToZ, n, z, c, v)
    ensures RotcrOf(n, Shl1(x)) == NewCpsr(x, ToN, n, z, c, v)
  {
    ShlDrop(x); Tops(x);
    PackOne(n, z, x % 0x4000_0000, x % 0x8000_0000);
  }
  lemma PackOne(n: bool, z: bool, y: Word, w: Word)
    requires y < 0x4000_0000 && w < 0x8000_0000
    ensures RotcrOf(n, RotcrOf(z, 4 * y)) == y + Flag(z, 0x4000_0000) + Flag(n, 0x8000_0000)
    ensures RotcrOf(n, 2 * w) == w + Flag(n, 0x8000_0000)
  {
    assert RotcrOf(z, 4 * y) == 2 * y + Flag(z, 0x8000_0000);
  }

  lemma RunRotIn(r: Reg, h: Host)
    requires r in {R4, R5, R6}
    ensures Run(RotIn(r), h) == h.(r3 := Get(h, r) / 2, r2 := RotcrOf(Get(h, r) % 2 == 1, h.r2), t := h.r2 % 2 == 1)
  { hide Run, Shl1, Shl2, RotcrOf; Run3(Bin(MOV, r, R3), Un(SHLR, R3), Un(ROTCR, R2), h); }

  lemma RunRotZ(h: Host)
    ensures Run(RotZ(), h) == h.(r2 := RotcrOf(h.r1 == 0, h.r2), t := h.r2 % 2 == 1)
  { hide Run, Shl1, Shl2, RotcrOf; AndSelf(h.r1); Run2(Test(TST, R1, R1), Un(ROTCR, R2), h); }

  lemma RunRotN(h: Host)
    ensures var x := RotcrOf(Neg31(h.r1), h.r2);
      Run(RotN(), h) == h.(r3 := Shl1(h.r1), r2 := x, r8 := x, t := h.r2 % 2 == 1)
  {
    hide Run, Shl1, Shl2, RotcrOf;
    Run4(Bin(MOV, R1, R3), Un(SHLL, R3), Un(ROTCR, R2), Bin(MOV, R2, R8), h);
  }

  lemma RunDropV(h: Host)
    ensures Run([Bin(MOV, R8, R2), Un(SHLL2, R2), Un(SHLL2, R2)], h) == h.(r2 := Shl2(Shl2(h.r8)))
    ensures Run([Bin(MOV, R8, R2), Un(SHLL2, R2), Un(SHLL, R2)], h)
      == h.(r2 := Shl1(Shl2(h.r8)), t := Neg31(Shl2(h.r8)))
  { hide Run, Shl1, Shl2, RotcrOf;
    Run3(Bin(MOV, R8, R2), Un(SHLL2, R2), Un(SHLL2, R2), h);
    Run3(Bin(MOV, R8, R2), Un(SHLL2, R2), Un(SHLL, R2), h);
  }
  lemma RunDropZ(h: Host)
    ensures Run([Bin(MOV, R8, R2), Un(SHLL2, R2)], h) == h.(r2 := Shl2(h.r8))
    ensures Run([Bin(MOV, R8, R2), Un(SHLL, R2)], h) == h.(r2 := Shl1(h.r8), t := Neg31(h.r8))
  { hide Run, Shl1, Shl2, RotcrOf;
    Run2(Bin(MOV, R8, R2), Un(SHLL2, R2), h);
    Run2(Bin(MOV, R8, R2), Un(SHLL, R2), h);
  }

  lemma RunRotZN(h: Host)
    ensures var h' := Run(RotZ() + RotN(), h);
      h'.r8 == RotcrOf(Neg31(h.r1), RotcrOf(h.r1 == 0, h.r2)) && h'.r11 == h.r11 && h'.file == h.file
  { hide Run, Step, RotIn, RotZ, RotN, RotcrOf; RunRotZ(h); RunAppend(RotZ(), RotN(), h); RunRotN(Run(RotZ(), h)); }

  lemma RunRotCZN(rc: Reg, h: Host)
    requires rc in {R4, R6} && Get(h, rc) <= 1
    ensures var h' := Run(RotIn(rc) + (RotZ() + RotN()), h);
      h'.r8 == RotcrOf(Neg31(h.r1), RotcrOf(h.r1 == 0, RotcrOf(Get(h, rc) == 1, h.r2)))
      && h'.r11 == h.r11 && h'.file == h.file
  { hide Run, Step, RotIn, RotZ, RotN, RotcrOf;
    RunRotIn(rc, h); RunAppend(RotIn(rc), RotZ() + RotN(), h); RunRotZN(Run(RotIn(rc), h));
  }

  lemma RunRotVCZN(rv: Reg, rc: Reg, h: Host)
    requires rc in {R4, R6} && Get(h, rc) <= 1 && rv in {R4, R5, R6} && Get(h, rv) <= 1
    ensures var h' := Run(RotIn(rv) + (RotIn(rc) + (RotZ() + RotN())), h);
      h'.r8 == RotcrOf(Neg31(h.r1), RotcrOf(h.r1 == 0, RotcrOf(Get(h, rc) == 1, RotcrOf(Get(h, rv) == 1, h.r2))))
      && h'.r11 == h.r11 && h'.file == h.file
  { hide Run, Step, RotIn, RotZ, RotN, RotcrOf;
    RunRotIn(rv, h); RunAppend(RotIn(rv), RotIn(rc) + (RotZ() + RotN()), h); RunRotCZN(rc, Run(RotIn(rv), h));
  }

  /** sh4g_set_flags replaces exactly the flags of `eff` and nothing else. */
  lemma SetFlagsRun(rc: Reg, rv: Reg, eff: Eff, h: Host)
    requires rc in {R4, R6} && rv in {R4, R5, R6}
    requires eff.HasC() ==> Get(h, rc) <= 1
    requires eff == ToV ==> Get(h, rv) <= 1
    ensures var h' := Run(SetFlagsCode(rc, rv, eff), h);
      h'.r8 == NewCpsr(h.r8, eff, Neg31(h.r1), h.r1 == 0, Get(h, rc) == 1, Get(h, rv) == 1)
      && h'.r11 == h.r11 && h'.file == h.file
  {
    match eff
    case None0 => Unpack(h.r8);
    case ToN => SetFlagsRunN(rc, rv, h);
    case ToZ => SetFlagsRunZ(rc, rv, h);
    case ToC => SetFlagsRunC(rc, rv, h);
    case ToV => SetFlagsRunV(rc, rv, h);
  }
  lemma SetFlagsRunN(rc: Reg, rv: Reg, h: Host)
    ensures var h' := Run(SetFlagsCode(rc, rv, ToN), h);
      h'.r8 == NewCpsr(h.r8, ToN, Neg31(h.r1), h.r1 == 0, Get(h, rc) == 1, Get(h, rv) == 1)
      && h'.r11 == h.r11 && h'.file == h.file
  {
    hide Run, Step, RotIn, RotZ, RotN, Shl1, Shl2, RotcrOf, NewCpsr;
    RunDropZ(h);
    var a := [Bin(MOV, R8, R2), Un(SHLL, R2)];
    RunRotN(Run(a, h)); RunAppend(a, RotN(), h);
    PackZ(h.r8, Neg31(h.r1), h.r1 == 0, Get(h, rc) == 1, Get(h, rv) == 1);
    assert SetFlagsCode(rc, rv, ToN) == a + RotN();
  }
  lemma SetFlagsRunZ(rc: Reg, rv: Reg, h: Host)
    ensures var h' := Run(SetFlagsCode(rc, rv, ToZ), h);
      h'.r8 == NewCpsr(h.r8, ToZ, Neg31(h.r1), h.r1 == 0, Get(h, rc) == 1, Get(h, rv) == 1)
      && h'.r11 == h.r11 && h'.file == h.file
  {
    hide Run, Step, RotIn, RotZ, RotN, Shl1, Shl2, RotcrOf, NewCpsr;
    RunDropZ(h);
    var a := [Bin(MOV, R8, R2), Un(SHLL2, R2)];
    RunAppend(a, RotZ() + RotN(), h); RunRotZN(Run(a, h));
    PackZ(h.r8, Neg31(h.r1), h.r1 == 0, Get(h, rc) == 1, Get(h, rv) == 1);
    assert SetFlagsCode(rc, rv, ToZ) == a + (RotZ() + RotN());
  }
  lemma SetFlagsRunC(rc: Reg, rv: Reg, h: Host)
    requires rc in {R4, R6} && Get(h, rc) <= 1
    ensures var h' := Run(SetFlagsCode(rc, rv, ToC), h);
      h'.r8 == NewCpsr(h.r8, ToC, Neg31(h.r1), h.r1 == 0, Get(h, rc) == 1, Get(h, rv) == 1)
      && h'.r11 == h.r11 && h'.file == h.file
  {
    hide Run, Step, RotIn, RotZ, RotN, Shl1, Shl2, RotcrOf, NewCpsr;
    RunDropV(h);
    var a, b := [Bin(MOV, R8, R2), Un(SHLL2, R2), Un(SHLL, R2)], RotIn(rc) + (RotZ() + RotN());
    RunAppend(a, b, h); RunRotCZN(rc, Run(a, h));
    PackC(h.r8, Neg31(h.r1), h.r1 == 0, Get(h, rc) == 1, Get(h, rv) == 1);
    assert SetFlagsCode(rc, rv, ToC) == a + b;
  }
  lemma SetFlagsRunV(rc: Reg, rv: Reg, h: Host)
    requires rc in {R4, R6} && Get(h, rc) <= 1 && rv in {R4, R5, R6} && Get(h, rv) <= 1
    ensures var h' := Run(SetFlagsCode(rc, rv, ToV), h);
      h'.r8 == NewCpsr(h.r8, ToV, Neg31(h.r1), h.r1 == 0, Get(h, rc) == 1, Get(h, rv) == 1)
      && h'.r11 == h.r11 && h'.file == h.file
  {
    hide Run, Step, RotIn, RotZ, RotN, Shl1, Shl2, RotcrOf, NewCpsr, SetFlagsCode;
    RunDropV(h);
    var a, b := [Bin(MOV, R8, R2), Un(SHLL2, R2), Un(SHLL2, R2)], RotIn(rv) + (RotIn(rc) + (RotZ() + RotN()));
    RunAppend(a, b, h); RunRotVCZN(rv, rc, Run(a, h));
    PackV(h.r8, Neg31(h.r1), h.r1 == 0, Get(h, rc) == 1, Get(h, rv) == 1);
    FlagsCodeV(rc, rv);
  }
  lemma FlagsCodeV(rc: Reg, rv: Reg)
    ensures SetFlagsCode(rc, rv, ToV)
      == [Bin(MOV, R8, R2), Un(SHLL2, R2), Un(SHLL2, R2)] + (RotIn(rv) + (RotIn(rc) + (RotZ() + RotN())))
  { hide RotIn, RotZ, RotN; }

  // ---- result write-back ---------------------------------------------------

  function TailCode(write: bool, rd: nat, rc: Reg, rv: Reg, eff: Eff): seq<Op> {
    (if write then [StoreGreg(R1, rd)] else []) + SetFlagsCode(rc, rv, eff)
  }

  /** Guest state once `res` and the flags of `eff` are committed. */
  function Commit(g: Guest, write: bool, rd: nat, eff: Eff, res: Word, c: bool, v: bool): Guest
    requires rd < 16
  {
    Guest(if write then g.r[rd := res] else g.r, NewCpsr(g.cpsr, eff, Neg31(res), res == 0, c, v))
  }

  lemma TailRun(write: bool, rd: nat, rc: Reg, rv: Reg, eff: Eff, h: Host)
    requires rd < 16 && rc in {R4, R6} && rv in {R4, R5, R6}
    requires eff.HasC() ==> Get(h, rc) <= 1
    requires eff == ToV ==> Get(h, rv) <= 1
    ensures View(Run(TailCode(write, rd, rc, rv, eff), h)) ==
      Commit(View(h), write, rd, eff, h.r1, Get(h, rc) == 1, Get(h, rv) == 1)
  {
    if write {
      var a := StoreGreg(R1, rd);
      TailStore(a, SetFlagsCode(rc, rv, eff), h);
      StoreGregStep(R1, rd, h);
      SetFlagsRun(rc, rv, eff, Step(a, h));
      KeepsScratch(Step(a, h), h);
      hide Run, Step, SetFlagsCode, NewCpsr, StoreGreg;
    } else {
      hide Run, Step, SetFlagsCode, NewCpsr;
      assert TailCode(write, rd, rc, rv, eff) == SetFlagsCode(rc, rv, eff);
      SetFlagsRun(rc, rv, eff, h);
    }
  }
  lemma TailStore(a: Op, b: seq<Op>, h: Host)
    ensures Run([a] + b, h) == Run(b, Step(a, h))
  { hide Step; RunAppend([a], b, h); Run1(a, h); }
  lemma KeepsScratch(h': Host, h: Host)
    requires h' == h.(r11 := h'.r11) || h' == h.(file := h'.file)
    ensures forall r :: Scratch(r) ==> Get(h', r) == Get(h, r)
    ensures h'.r8 == h.r8
  {}

  // ---- ADD/SUB/CMP/CMN/NEG/RSB ---------------------------------------------

  function AddSubOps(isSub: bool, eff: Eff): seq<Op> {
    if isSub then
      match eff
      case ToV => [Bin(MOV, R1, R3), Test(CMPHS, R2, R1), Un(MOVT, R4), Bin(SUB, R2, R1),
                   Bin(SUBV, R2, R3), Un(MOVT, R5)]
      case ToC => [Test(CMPHS, R2, R1), Un(MOVT, R4), Bin(SUB, R2, R1)]
      case _ => [Bin(SUB, R2, R1)]
    else
      match eff
      case ToV => [Bin(MOV, R1, R3), SetT(false), Bin(ADDC, R2, R1), Un(MOVT, R4),
                   Bin(ADDV, R2, R3), Un(MOVT, R5)]
      case ToC => [SetT(false), Bin(ADDC, R2, R1), Un(MOVT, R4)]
      case _ => [Bin(ADD, R2, R1)]
  }

  /** sh4g_dp_addsub: R1 op R2, result in R1 and in rd when `write`. */
  function AddSubCode(isSub: bool, rd: nat, write: bool, live: Live): seq<Op> {
    var eff := FlagsRound(live);
    AddSubOps(isSub, eff) + TailCode(write, rd, R4, R5, eff)
  }

  function SumOf(isSub: bool, a: Word, b: Word): Sum {
    if isSub then AddC(a, NotW(b), 1) else AddC(a, b, 0)
  }

  lemma SumFacts(a: Word, b: Word)
    ensures SumOf(true, a, b).res == SubW(a, b) && SumOf(true, a, b).c == (a >= b)
    ensures SumOf(true, a, b).v == (Neg31(b) != Neg31(a) && Neg31(SubW(a, b)) != Neg31(a))
    ensures SumOf(false, a, b).res == AddW(a, b)
    ensures SumOf(false, a, b).c == (AddW(a, b) < a)
    ensures SumOf(false, a, b).v == (Neg31(b) == Neg31(a) && Neg31(AddW(a, b)) != Neg31(a))
  {
    OverflowSigns(a, NotW(b), SubW(a, b));
    OverflowSigns(a, b, AddW(a, b));
  }

  predicate SameGuest(h: Host, h': Host) { h'.r8 == h.r8 && h'.r11 == h.r11 && h'.file == h.file }

  predicate AddSubDone(isSub: bool, eff: Eff, h: Host, h': Host) {
    var s := SumOf(isSub, h.r1, h.r2);
    SameGuest(h, h') && h'.r1 == s.res && (eff.HasC() ==> h'.r4 == Bit(s.c)) && (eff == ToV ==> h'.r5 == Bit(s.v))
  }
  lemma SubRun(eff: Eff, h: Host)
    ensures AddSubDone(true, eff, h, Run(AddSubOps(true, eff), h))
  {
    hide Run, SumOf, AddW, SubW, NotW, Neg31, AndW;
    SumFacts(h.r1, h.r2);
    if eff == ToV {
      Run6(Bin(MOV, R1, R3), Test(CMPHS, R2, R1), Un(MOVT, R4), Bin(SUB, R2, R1), Bin(SUBV, R2, R3), Un(MOVT, R5), h);
    } else if eff == ToC {
      Run3(Test(CMPHS, R2, R1), Un(MOVT, R4), Bin(SUB, R2, R1), h);
    } else { Run1(Bin(SUB, R2, R1), h); }
  }
  lemma AddRun(eff: Eff, h: Host)
    ensures AddSubDone(false, eff, h, Run(AddSubOps(false, eff), h))
  {
    hide Run, SumOf, AddW, SubW, NotW, Neg31, AndW;
    SumFacts(h.r1, h.r2);
    if eff == ToV {
      Run6(Bin(MOV, R1, R3), SetT(false), Bin(ADDC, R2, R1), Un(MOVT, R4), Bin(ADDV, R2, R3), Un(MOVT, R5), h);
    } else if eff == ToC {
      Run3(SetT(false), Bin(ADDC, R2, R1), Un(MOVT, R4), h);
    } else { Run1(Bin(ADD, R2, R1), h); }
  }

  lemma AddSubCorrect(isSub: bool, rd: nat, write: bool, live: Live, h: Host)
    requires rd < 16
    ensures var s := SumOf(isSub, h.r1, h.r2);
      View(Run(AddSubCode(isSub, rd, write, live), h)) == Commit(View(h), write, rd, FlagsRound(live), s.res, s.c, s.v)
  {
    hide Run, Step, TailCode, AddSubOps, SumOf;
    var eff := FlagsRound(live);
    if isSub { SubRun(eff, h); } else { AddRun(eff, h); }
    var h1 := Run(AddSubOps(isSub, eff), h);
    RunAppend(AddSubOps(isSub, eff), TailCode(write, rd, R4, R5, eff), h);
    TailRun(write, rd, R4, R5, eff, h1);
  }

  // ---- ADC/SBC/RSC -----------------------------------------------------------

  function CarryMain(isSub: bool): seq<Op> {
    if isSub then [Bin(MOV, R8, R3), MovI(1, R0), Un(ROTR, R0), Un(SHLR2, R0), Test(TST, R0, R3), Bin(SUBC, R2, R1)]
    else [Bin(MOV, R8, R0), Un(SHLL2, R0), Un(SHLL, R0), Bin(ADDC, R2, R1)]
  }
  function CarryOut(isSub: bool): seq<Op> {
    if isSub then [Un(MOVT, R4), Bin(NOT, R4, R0), AndI(1), Bin(MOV, R0, R4)] else [Un(MOVT, R4)]
  }
  function CarryV(isSub: bool): seq<Op> {
    if isSub then
      [Bin(MOV, R6, R3), Bin(XOR, R2, R3), Bin(MOV, R6, R0), Bin(XOR, R1, R0),
       Bin(AND, R0, R3), Un(SHLL, R3), Un(MOVT, R5)]
    else
      [Bin(MOV, R6, R3), Bin(XOR, R2, R3), Bin(NOT, R3, R3), Bin(MOV, R6, R0), Bin(XOR, R1, R0),
       Bin(AND, R0, R3), Un(SHLL, R3), Un(MOVT, R5)]
  }
  function CarryOps(isSub: bool, eff: Eff): seq<Op> {
    (if eff == ToV then [Bin(MOV, R1, R6)] else [])
    + (CarryMain(isSub)
    + ((if eff.HasC() then CarryOut(isSub) else [])
    + (if eff == ToV then CarryV(isSub) else [])))
  }

  /** sh4g_dp_carry. */
  function CarryCode(isSub: bool, rd: nat, live: Live): seq<Op> {
    var eff := FlagsRound(live);
    CarryOps(isSub, eff) + TailCode(true, rd, R4, R5, eff)
  }

  function CarrySum(isSub: bool, a: Word, b: Word, c: bool): Sum {
    AddC(a, if isSub then NotW(b) else b, Bit(c))
  }

  lemma CarryFacts(a: Word, b: Word, c: bool)
    ensures var s := CarrySum(false, a, b, c);
      s.res == AddW(AddW(a, b), Bit(c)) && s.c == (AddW(a, b) < a || AddW(AddW(a, b), Bit(c)) < AddW(a, b))
    ensures var s := CarrySum(true, a, b, c);
      s.res == SubW(SubW(a, b), Bit(!c)) && s.c != (a < SubW(a, b) || SubW(a, b) < SubW(SubW(a, b), Bit(!c)))
  {
    hide AddV;
  }
  lemma CarryBitMask(cpsr: Word)
    ensures AndW(cpsr, 0x2000_0000) == 0 <==> !C(cpsr)
    ensures Neg31(Shl2(cpsr)) <==> C(cpsr)
  {
    hide Bitwise, Pow2, Shl1, Shl2, C;
    Pow2Is29(); BitTest(cpsr, 29); ShlDrop2(cpsr); CarryBit(cpsr);
  }
  lemma CarryBit(cpsr: Word)
    ensures C(cpsr) <==> (cpsr / 0x2000_0000) % 2 == 1
    ensures C(cpsr) <==> 4 * (cpsr % 0x4000_0000) >= 0x8000_0000
  {}
  lemma Pow2Is29()
    ensures Pow2(29) == 0x2000_0000
  { Pow2Is32(); assert Pow2(31) == 2 * Pow2(30) && Pow2(30) == 2 * Pow2(29); }

  lemma CarryMainRun(isSub: bool, h: Host)
    ensures var h', s := Run(CarryMain(isSub), h), CarrySum(isSub, h.r1, h.r2, C(h.r8));
      SameGuest(h, h') && h'.r1 == s.res && h'.t == (s.c != isSub) && h'.r2 == h.r2 && h'.r6 == h.r6
  {
    CarryBitMask(h.r8);
    CarryFacts(h.r1, h.r2, C(h.r8));
    if isSub {
      hide Run, AndW, Shl1, Shl2, C, CarrySum, Neg31, AddW, SubW;
      assert RotcrOf(true, 1) / 4 == 0x2000_0000; assert SExt8(1) == 1;
      Run6(Bin(MOV, R8, R3), MovI(1, R0), Un(ROTR, R0), Un(SHLR2, R0), Test(TST, R0, R3), Bin(SUBC, R2, R1), h);
    } else {
      hide Run, AndW, Shl1, Shl2, C, CarrySum, Neg31, AddW, SubW, Bit;
      Run4(Bin(MOV, R8, R0), Un(SHLL2, R0), Un(SHLL, R0), Bin(ADDC, R2, R1), h);
    }
  }

  lemma CarryOutRun(isSub: bool, h: Host)
    ensures var h' := Run(CarryOut(isSub), h);
      SameGuest(h, h') && h'.r4 == Bit(h.t != isSub) && h'.r1 == h.r1 && h'.r2 == h.r2 && h'.r6 == h.r6
  {
    hide Run, AndW, NotW, Bit;
    if isSub { NotCarry(h.t); CarryOutSub(h); } else { Run1(Un(MOVT, R4), h); }
  }
  lemma NotCarry(t: bool) ensures AndW(NotW(Bit(t)), 1) == Bit(!t) { AndOne(NotW(Bit(t))); }
  lemma CarryOutSub(h: Host)
    ensures var h' := Run(CarryOut(true), h);
      SameGuest(h, h') && h'.r4 == AndW(NotW(Bit(h.t)), 1) && h'.r1 == h.r1 && h'.r2 == h.r2 && h'.r6 == h.r6
  {
    hide Run, AndW, NotW, Bit;
    Run4(Un(MOVT, R4), Bin(NOT, R4, R0), AndI(1), Bin(MOV, R0, R4), h);
  }

  predicate CarryVDone(isSub: bool, h: Host, h': Host) {
    SameGuest(h, h') && h'.r1 == h.r1 && h'.r4 == h.r4
    && h'.r5 == Bit(if isSub then SubV(h.r6, h.r2, h.r1) else AddV(h.r6, h.r2, h.r1))
  }
  lemma SubCarryVRun(h: Host)
    ensures CarryVDone(true, h, Run(CarryV(true), h))
  {
    hide Run, AndW, XorW, Shl1, NotW, Neg31, Bit;
    Run7(Bin(MOV, R6, R3), Bin(XOR, R2, R3), Bin(MOV, R6, R0), Bin(XOR, R1, R0),
         Bin(AND, R0, R3), Un(SHLL, R3), Un(MOVT, R5), h);
  }
  lemma AddCarryVRun(h: Host)
    ensures CarryVDone(false, h, Run(CarryV(false), h))
  {
    hide Run, AndW, XorW, Shl1, NotW, Neg31, Bit;
    Run8(Bin(MOV, R6, R3), Bin(XOR, R2, R3), Bin(NOT, R3, R3), Bin(MOV, R6, R0), Bin(XOR, R1, R0),
         Bin(AND, R0, R3), Un(SHLL, R3), Un(MOVT, R5), h);
  }

  lemma CarryOpsRun(isSub: bool, eff: Eff, h: Host)
    ensures var h', s := Run(CarryOps(isSub, eff), h), CarrySum(isSub, h.r1, h.r2, C(h.r8));
      SameGuest(h, h') && h'.r1 == s.res && (eff.HasC() ==> h'.r4 == Bit(s.c)) && (eff == ToV ==> h'.r5 == Bit(s.v))
  {
    hide Run, Step, CarryMain, CarryOut, CarryV, CarrySum, Bit;
    var save: seq<Op> := if eff == ToV then [Bin(MOV, R1, R6)] else [];
    var out := if eff.HasC() then CarryOut(isSub) else [];
    var ovf := if eff == ToV then CarryV(isSub) else [];
    var h1 := Run(save, h);
    assert SameGuest(h, h1) && h1.r1 == h.r1 && h1.r2 == h.r2 && (eff == ToV ==> h1.r6 == h.r1) by {
      SaveRun(eff == ToV, h);
    }
    RunSplit(save, CarryMain(isSub) + (out + ovf), h);
    CarryMainRun(isSub, h1);
    var h2 := Run(CarryMain(isSub), h1);
    RunSplit(CarryMain(isSub), out + ovf, h1);
    RunSplit(out, ovf, h2);
    if eff.HasC() { CarryOutRun(isSub, h2); } else { RunNil(h2); }
    var h3 := Run(out, h2);
    if eff == ToV {
      if isSub { SubCarryVRun(h3); } else { AddCarryVRun(h3); }
      CarryOverflow(isSub, h.r1, h.r2, C(h.r8));
    } else { RunNil(h3); }
  }
  lemma RunNil(h: Host) ensures Run([], h) == h {}
  lemma SaveRun(save: bool, h: Host)
    ensures var h' := Run(if save then [Bin(MOV, R1, R6)] else [], h);
      SameGuest(h, h') && h'.r1 == h.r1 && h'.r2 == h.r2 && (save ==> h'.r6 == h.r1)
  { if save { Run1(Bin(MOV, R1, R6), h); } }
  lemma CarryOverflow(isSub: bool, a: Word, b: Word, c: bool)
    ensures var s := CarrySum(isSub, a, b, c);
      s.v == if isSub then SubV(a, b, s.res) else AddV(a, b, s.res)
  {
    var s := CarrySum(isSub, a, b, c);
    OverflowSigns(a, b, s.res); OverflowSigns(a, NotW(b), s.res);
  }

  lemma CarryCorrect(isSub: bool, rd: nat, live: Live, h: Host)
    requires rd < 16
    ensures var s := CarrySum(isSub, h.r1, h.r2, C(h.r8));
      View(Run(CarryCode(isSub, rd, live), h)) == Commit(View(h), true, rd, FlagsRound(live), s.res, s.c, s.v)
  {
    hide Run, Step, TailCode, CarryOps, CarrySum;
    var eff := FlagsRound(live);
    CarryOpsRun(isSub, eff, h);
    var h1 := Run(CarryOps(isSub, eff), h);
    RunSplit(CarryOps(isSub, eff), TailCode(true, rd, R4, R5, eff), h);
    TailRun(true, rd, R4, R5, eff, h1);
  }
  lemma RunSplit(a: seq<Op>, b: seq<Op>, h: Host)
    ensures Run(a + b, h) == Run(b, Run(a, h))
  { hide Step; RunAppend(a, b, h); }
}
