module Sh4 {
  import opened Words
  import opened Guest

  datatype Reg = R0 | R1 | R2 | R3 | R4 | R5 | R6 | R8 | R11

  datatype Host = Host(r0: Word, r1: Word, r2: Word, r3: Word, r4: Word, r5: Word,
                       r6: Word, r8: Word, r11: Word,
                       t: bool, macl: Word, mach: Word, file: RegFile)

  function Get(h: Host, r: Reg): Word {
    match r
    case R0 => h.r0 case R1 => h.r1 case R2 => h.r2 case R3 => h.r3
    case R4 => h.r4 case R5 => h.r5 case R6 => h.r6
    case R8 => h.r8 case R11 => h.r11
  }

  function Set(h: Host, r: Reg, v: Word): Host {
    match r
    case R0 => h.(r0 := v) case R1 => h.(r1 := v) case R2 => h.(r2 := v)
    case R3 => h.(r3 := v) case R4 => h.(r4 := v) case R5 => h.(r5 := v)
    case R6 => h.(r6 := v) case R8 => h.(r8 := v)
    case R11 => h.(r11 := v)
  }

  datatype Alu2 = MOV | ADD | ADDC | ADDV | SUB | SUBC | SUBV | NEG | NOT | AND | OR | XOR | SHLD | SHAD
  datatype Alu1 = MOVT | SHLL | SHLR | SHLL2 | SHLR2 | ROTR | ROTCR
  datatype Cmp = TST | CMPHS | CMPPZ
  datatype Mul = MULL | DMULU | DMULS

  datatype Op =
    | Bin(b: Alu2, m: Reg, n: Reg)
    | Un(u: Alu1, n: Reg)
    | Test(c: Cmp, m: Reg, n: Reg)
    | MovI(imm: int, n: Reg)
    | AddI(imm: int, n: Reg)
    | AndI(mask: Word)
    | CmpEqI(imm: int)
    | Const(value: Word, n: Reg)
    | LdG(idx: nat, n: Reg) | StG(m: Reg, idx: nat)
    | Mult(k: Mul, m: Reg, n: Reg)
    | StsMacl(n: Reg) | StsMach(n: Reg)
    | SetT(b1: bool)
    | Nop
    | Bt(disp: int) | Bf(disp: int) | Bra(disp: int)

  function SExt8(imm: int): Word {
    var b := imm % 256;
    if b >= 128 then b + 0xFFFF_FF00 else b
  }

  function ShldOf(m: Word, n: Word): Word {
    if !Neg31(m) then Lsl(n, m % 32)
    else if m % 32 == 0 then 0
    else Lsr(n, 32 - m % 32)
  }

  function ShadOf(m: Word, n: Word): Word {
    if !Neg31(m) then Lsl(n, m % 32)
    else if m % 32 == 0 then (if Neg31(n) then 0xFFFF_FFFF else 0)
    else Asr(n, 32 - m % 32)
  }

  function Shl1(x: Word): Word { (2 * x) % 0x1_0000_0000 }
  function Shl2(x: Word): Word { (4 * x) % 0x1_0000_0000 }
  function RotcrOf(t: bool, x: Word): Word { x / 2 + (if t then 0x8000_0000 else 0) }

  function Lo(x: int): Word { x % 0x1_0000_0000 }
  function Hi(x: int): Word { (x / 0x1_0000_0000) % 0x1_0000_0000 }

  function Val2(b: Alu2, x: Word, y: Word, t: bool): Word {
    match b
    case MOV => x
    case ADD => AddW(y, x)
    case ADDC => AddW(AddW(y, x), Bit(t))
    case ADDV => AddW(y, x)
    case SUB => SubW(y, x)
    case SUBC => SubW(SubW(y, x), Bit(t))
    case SUBV => SubW(y, x)
    case NEG => SubW(0, x)
    case NOT => NotW(x)
    case AND => AndW(y, x)
    case OR => OrW(y, x)
    case XOR => XorW(y, x)
    case SHLD => ShldOf(x, y)
    case SHAD => ShadOf(x, y)
  }
  function T2(b: Alu2, x: Word, y: Word, t: bool): bool {
    match b
    case ADDC => AddW(y, x) < y || AddW(AddW(y, x), Bit(t)) < AddW(y, x)
    case ADDV => Neg31(x) == Neg31(y) && Neg31(AddW(y, x)) != Neg31(y)
    case SUBC => y < SubW(y, x) || SubW(y, x) < SubW(SubW(y, x), Bit(t))
    case SUBV => Neg31(x) != Neg31(y) && Neg31(SubW(y, x)) != Neg31(y)
    case _ => t
  }
  function Val1(u: Alu1, x: Word, t: bool): Word {
    match u
    case MOVT => Bit(t)
    case SHLL => Shl1(x)
    case SHLR => x / 2
    case SHLL2 => Shl2(x)
    case SHLR2 => x / 4
    case ROTR => RotcrOf(x % 2 == 1, x)
    case ROTCR => RotcrOf(t, x)
  }
  function T1(u: Alu1, x: Word, t: bool): bool {
    match u
    case SHLL => Neg31(x)
    case SHLR => x % 2 == 1
    case ROTR => x % 2 == 1
    case ROTCR => x % 2 == 1
    case _ => t
  }
  function Holds(c: Cmp, x: Word, y: Word): bool {
    match c
    case TST => AndW(y, x) == 0
    case CMPHS => y >= x
    case CMPPZ => !Neg31(y)
  }
  function Product(k: Mul, x: Word, y: Word): int {
    match k case MULL => x * y case DMULU => x * y case DMULS => Signed(x) * Signed(y)
  }

  /** One straight-line instruction. */
  function Step(op: Op, h: Host): Host {
    match op
    case Bin(b, m, n) => Set(h, n, Val2(b, Get(h, m), Get(h, n), h.t)).(t := T2(b, Get(h, m), Get(h, n), h.t))
    case Un(u, n) => Set(h, n, Val1(u, Get(h, n), h.t)).(t := T1(u, Get(h, n), h.t))
    case Test(c, m, n) => h.(t := Holds(c, Get(h, m), Get(h, n)))
    case MovI(imm, n) => Set(h, n, SExt8(imm))
    case AddI(imm, n) => Set(h, n, AddW(Get(h, n), SExt8(imm)))
    case AndI(mask) => h.(r0 := AndW(h.r0, mask))
    case CmpEqI(imm) => h.(t := h.r0 == SExt8(imm))
    case Const(v, n) => Set(h, n, v)
    case LdG(i, n) => if i < 16 then Set(h, n, h.file[i]) else h
    case StG(m, i) => if i < 16 then h.(file := h.file[i := Get(h, m)]) else h
    case Mult(k, m, n) => h.(macl := Lo(Product(k, Get(h, m), Get(h, n))),
                             mach := if k == MULL then h.mach else Hi(Product(k, Get(h, m), Get(h, n))))
    case StsMacl(n) => Set(h, n, h.macl)
    case StsMach(n) => Set(h, n, h.mach)
    case SetT(b) => h.(t := b)
    case _ => h
  }

  datatype Option<T> = None | Some(value: T)

  predicate IsBranch(op: Op) { op.Bt? || op.Bf? || op.Bra? }

  function Exec(code: seq<Op>, h: Host): Option<Host> {
    if code == [] then Some(h)
    else if IsBranch(code[0]) then
      if !(0 <= code[0].disp && 2 + code[0].disp <= |code|) then None
      else if code[0].Bra? then
        if IsBranch(code[1]) then None else Exec(code[2 + code[0].disp..], Step(code[1], h))
      else if h.t == code[0].Bt? then Exec(code[2 + code[0].disp..], h)
      else Exec(code[1..], h)
    else Exec(code[1..], Step(code[0], h))
  }

  /** Straight-line code as a fold. */
  function Run(code: seq<Op>, h: Host): Host {
    if code == [] then h else Run(code[1..], Step(code[0], h))
  }

  predicate Straight(code: seq<Op>) { forall i :: 0 <= i < |code| ==> !IsBranch(code[i]) }

  lemma {:induction false} ExecStraight(code: seq<Op>, h: Host)
    requires Straight(code)
    ensures Exec(code, h) == Some(Run(code, h))
  {
    if code != [] { ExecStraight(code[1..], Step(code[0], h)); }
  }

  lemma {:induction false} RunAppend(a: seq<Op>, b: seq<Op>, h: Host)
    ensures Run(a + b, h) == Run(b, Run(a, h))
  {
    if a == [] { assert a + b == b; }
    else {
      assert (a + b)[1..] == a[1..] + b;
      RunAppend(a[1..], b, Step(a[0], h));
    }
  }

  lemma Run1(a: Op, h: Host)
    ensures Run([a], h) == Step(a, h)
  {
    assert [a][1..] == [];
    assert Run([a], h) == Run([a][1..], Step(a, h));
  }
  lemma Run2(a: Op, b: Op, h: Host)
    ensures Run([a, b], h) == Step(b, Step(a, h))
  {
    Run1(a, h); Run1(b, Step(a, h)); RunAppend([a], [b], h);
    assert [a] + [b] == [a, b];
  }
  lemma Run3(a: Op, b: Op, c: Op, h: Host)
    ensures Run([a, b, c], h) == Step(c, Step(b, Step(a, h)))
  {
    Run2(a, b, h); Run1(c, Step(b, Step(a, h))); RunAppend([a, b], [c], h);
    assert [a, b] + [c] == [a, b, c];
  }

  lemma Run4(a: Op, b: Op, c: Op, d: Op, h: Host)
    ensures Run([a, b, c, d], h) == Step(d, Step(c, Step(b, Step(a, h))))
  {
    hide Step;
    Run2(a, b, h); Run2(c, d, Step(b, Step(a, h))); RunAppend([a, b], [c, d], h);
    assert [a, b] + [c, d] == [a, b, c, d];
  }
  lemma Run5(a: Op, b: Op, c: Op, d: Op, e: Op, h: Host)
    ensures Run([a, b, c, d, e], h) == Step(e, Step(d, Step(c, Step(b, Step(a, h)))))
  {
    hide Step;
    Run2(a, b, h); Run3(c, d, e, Step(b, Step(a, h))); RunAppend([a, b], [c, d, e], h);
    assert [a, b] + [c, d, e] == [a, b, c, d, e];
  }
  lemma Run6(a: Op, b: Op, c: Op, d: Op, e: Op, f: Op, h: Host)
    ensures Run([a, b, c, d, e, f], h) == Step(f, Step(e, Step(d, Step(c, Step(b, Step(a, h))))))
  {
    hide Step;
    Run3(a, b, c, h); Run3(d, e, f, Step(c, Step(b, Step(a, h)))); RunAppend([a, b, c], [d, e, f], h);
    assert [a, b, c] + [d, e, f] == [a, b, c, d, e, f];
  }
  lemma Run7(a: Op, b: Op, c: Op, d: Op, e: Op, f: Op, g: Op, h: Host)
    ensures Run([a, b, c, d, e, f, g], h) == Step(g, Step(f, Step(e, Step(d, Step(c, Step(b, Step(a, h)))))))
  {
    hide Step;
    Run4(a, b, c, d, h); Run3(e, f, g, Run([a, b, c, d], h)); RunAppend([a, b, c, d], [e, f, g], h);
    assert [a, b, c, d] + [e, f, g] == [a, b, c, d, e, f, g];
  }
  lemma Run8(a: Op, b: Op, c: Op, d: Op, e: Op, f: Op, g: Op, i: Op, h: Host)
    ensures Run([a, b, c, d, e, f, g, i], h)
      == Step(i, Step(g, Step(f, Step(e, Step(d, Step(c, Step(b, Step(a, h))))))))
  {
    hide Step;
    Run4(a, b, c, d, h); Run4(e, f, g, i, Run([a, b, c, d], h)); RunAppend([a, b, c, d], [e, f, g, i], h);
    assert [a, b, c, d] + [e, f, g, i] == [a, b, c, d, e, f, g, i];
  }

  /** Code whose branches stay inside it composes with whatever follows. */
  lemma {:induction false} ExecAppend(a: seq<Op>, b: seq<Op>, h: Host)
    requires Exec(a, h).Some?
    ensures Exec(a + b, h) == Exec(b, Exec(a, h).value)
    decreases |a|
  {
    hide Step;
    if a == [] { assert a + b == b; }
    else {
      assert (a + b)[1..] == a[1..] + b;
      if IsBranch(a[0]) {
        var k := 2 + a[0].disp;
        assert (a + b)[k..] == a[k..] + b;
        if a[0].Bra? { ExecAppend(a[k..], b, Step(a[1], h)); }
        else if h.t == a[0].Bt? { ExecAppend(a[k..], b, h); }
        else { ExecAppend(a[1..], b, h); }
      } else { ExecAppend(a[1..], b, Step(a[0], h)); }
    }
  }

  lemma ExecStraightThen(a: seq<Op>, b: seq<Op>, h: Host)
    requires Straight(a)
    ensures Exec(a + b, h) == Exec(b, Run(a, h))
  { hide Step, Run; ExecStraight(a, h); ExecAppend(a, b, h); }

  /** BT over `body`. */
  function SkipIfT(body: seq<Op>): seq<Op> { [Bt(|body| - 1)] + body }

  lemma ExecSkip(body: seq<Op>, h: Host)
    requires body != []
    ensures Exec(SkipIfT(body), h) == if h.t then Some(h) else Exec(body, h)
  {
    hide Step;
    var c := SkipIfT(body);
    assert c[1..] == body && c[1 + |body|..] == [];
  }

  /** BT to `taken`, which BRA at the end of `other` skips. */
  function Branches(taken: seq<Op>, other: seq<Op>): seq<Op> {
    [Bt(|other| + 1)] + other + [Bra(|taken|), Nop] + taken
  }

  lemma ExecBranches(taken: seq<Op>, other: seq<Op>, h: Host)
    requires Exec(if h.t then taken else other, h).Some?
    ensures Exec(Branches(taken, other), h) == Exec(if h.t then taken else other, h)
  {
    hide Step, Run;
    var c := Branches(taken, other);
    var tail := [Bra(|taken|), Nop] + taken;
    assert c[1..] == other + tail && c[|other| + 3..] == taken;
    if !h.t {
      ExecAppend(other, tail, h);
      BraOver(tail, Exec(other, h).value);
    }
  }
  lemma BraOver(tail: seq<Op>, h: Host)
    requires |tail| >= 2 && tail[0] == Bra(|tail| - 2) && tail[1] == Nop
    ensures Exec(tail, h) == Some(h)
  { assert tail[|tail|..] == []; }
}
