/** The divide loop instruction by instruction, on the same helpers the interpreter path uses,
    and its equality with the summary. */
module UdivTrace {
  import opened Words
  import opened Guest
  import opened Alu
  import opened Cond
  import opened Udiv

  function Pattern(): (p: seq<Word>)
    ensures |p| == 28
  {
    [0x4288, 0xD301, 0x1A40, 0x431A,
     0x084C, 0x42A0, 0xD302, 0x1B00, 0x085C, 0x4322,
     0x088C, 0x42A0, 0xD302, 0x1B00, 0x089C, 0x4322,
     0x08CC, 0x42A0, 0xD302, 0x1B00, 0x08DC, 0x4322,
     0x2800, 0xD003, 0x091B, 0xD001, 0x0909, 0xE7E3]
  }

  /** Guest state, halfword index within the pattern, and the two fetch counts. */
  datatype Exec = Exec(g: Guest, at: int, fetches: nat, refills: nat)

  /** One Thumb instruction: a sequential fetch each, a refill for every branch, taken or not. */
  function StepOp(op: Word, base: Word, s: Exec): Exec {
    if 0xD000 <= op < 0xDE00 then
      var off := if op % 256 >= 128 then op % 256 - 256 else op % 256;
      Exec(s.g, if Passes((op / 256) % 16, s.g.cpsr) then s.at + 2 + off else s.at + 1, s.fetches + 1, s.refills + 1)
    else if 0xE000 <= op < 0xE800 then
      var off := if op % 2048 >= 1024 then op % 2048 - 2048 else op % 2048;
      Exec(s.g, s.at + 2 + off, s.fetches + 1, s.refills + 1)
    else if op < 0x1800 then Exec(ThumbShiftImm(op, s.g), s.at + 1, s.fetches + 1, s.refills)
    else Exec(ThumbDp(op, base, s.g).g, s.at + 1, s.fetches + 1, s.refills)
  }
  /** n instructions, stopping outside the pattern. */
  function Steps(n: nat, base: Word, s: Exec): Exec
    decreases n
  {
    if n == 0 || !(0 <= s.at < 28) then s else Steps(n - 1, base, StepOp(Pattern()[s.at], base, s))
  }
  lemma {:induction false} StepsAdd(n: nat, k: nat, base: Word, s: Exec)
    ensures Steps(n + k, base, s) == Steps(k, base, Steps(n, base, s))
    decreases n
  {
    hide StepOp, Pattern;
    if n > 0 && 0 <= s.at < 28 { StepsAdd(n - 1, k, base, StepOp(Pattern()[s.at], base, s)); }
    else if n > 0 { Stopped(k, base, s); Stopped(n + k, base, s); }
  }
  lemma Stopped(n: nat, base: Word, s: Exec) requires !(0 <= s.at < 28) ensures Steps(n, base, s) == s {}
  lemma OneStep(base: Word, s: Exec)
    requires 0 <= s.at < 28
    ensures Steps(1, base, s) == StepOp(Pattern()[s.at], base, s)
  { hide StepOp, Pattern; assert Steps(0, base, StepOp(Pattern()[s.at], base, s)) == StepOp(Pattern()[s.at], base, s); }

  /** Registers r0..r4 from d over the rest of f. */
  function With(f: RegFile, d: Div): RegFile { [d.r0, d.r1, d.r2, d.r3, d.r4] + f[5..] }
  function G(f: RegFile, d: Div, p: Word): Guest { Guest(With(f, d), p) }

  lemma WithAt(f: RegFile, d: Div, x: Word)
    ensures With(f, d)[0] == d.r0 && With(f, d)[1] == d.r1 && With(f, d)[2] == d.r2 && With(f, d)[3] == d.r3
    ensures With(f, d)[4] == d.r4
    ensures With(f, d)[0 := x] == With(f, d.(r0 := x)) && With(f, d)[1 := x] == With(f, d.(r1 := x))
    ensures With(f, d)[2 := x] == With(f, d.(r2 := x)) && With(f, d)[3 := x] == With(f, d.(r3 := x))
    ensures With(f, d)[4 := x] == With(f, d.(r4 := x))
  {}

  // ---- single instructions -----------------------------------------------------

  lemma CompareFlags(a: Word, b: Word, g: Guest)
    ensures var p := SetSum(g, AddC(a, NotW(b), 1)).cpsr;
      C(p) == (a >= b) && Z(p) == (a == b) && Low(p) == Low(g.cpsr) && V(p) == SumOf(true, a, b).v
      && N(p) == Neg31(SubW(a, b))
  {
    var s := SumOf(true, a, b);
    SumFacts(a, b);
    PackFields(Low(g.cpsr), Neg31(s.res), s.res == 0, s.c, s.v);
    hide AddC, Pack, N, Z, C, V, Low, SubW;
    assert s.res == 0 <==> a == b by { SubZero(a, b); }
  }
  lemma SubZero(a: Word, b: Word) ensures SubW(a, b) == 0 <==> a == b {}

  predicate Kept(p: Word, p': Word) { Low(p') == Low(p) }

  lemma Cmp01(f: RegFile, d: Div, base: Word, p: Word, fe: nat, re: nat) returns (p': Word)
    ensures StepOp(0x4288, base, Exec(G(f, d, p), 0, fe, re)) == Exec(G(f, d, p'), 1, fe + 1, re)
    ensures C(p') == (d.r0 >= d.r1) && Kept(p, p')
  {
    hide AddC, SetNz, AndW, OrW, XorW, MulW, With, C, Low, Pack, NotW;
    WithAt(f, d, 0); CompareFlags(d.r0, d.r1, G(f, d, p));
    p' := SetSum(G(f, d, p), AddC(d.r0, NotW(d.r1), 1)).cpsr;
  }
  lemma Cmp04(f: RegFile, d: Div, base: Word, p: Word, at: int, fe: nat, re: nat) returns (p': Word)
    ensures StepOp(0x42A0, base, Exec(G(f, d, p), at, fe, re)) == Exec(G(f, d, p'), at + 1, fe + 1, re)
    ensures C(p') == (d.r0 >= d.r4) && Kept(p, p')
  {
    hide AddC, SetNz, AndW, OrW, XorW, MulW, With, C, Low, Pack, NotW;
    WithAt(f, d, 0); CompareFlags(d.r0, d.r4, G(f, d, p));
    p' := SetSum(G(f, d, p), AddC(d.r0, NotW(d.r4), 1)).cpsr;
  }
  /** CMP r0,#0 always leaves carry set and overflow clear. */
  lemma Cmp0(f: RegFile, d: Div, base: Word, p: Word, at: int, fe: nat, re: nat) returns (p': Word)
    ensures StepOp(0x2800, base, Exec(G(f, d, p), at, fe, re)) == Exec(G(f, d, p'), at + 1, fe + 1, re)
    ensures Z(p') == (d.r0 == 0) && C(p') && !V(p') && N(p') == Neg31(d.r0) && Kept(p, p')
  {
    hide AddC, SetNz, AndW, OrW, XorW, MulW, With, C, Low, Pack, NotW, Z, V, N;
    WithAt(f, d, 0); CompareFlags(d.r0, 0, G(f, d, p)); SumFacts(d.r0, 0);
    p' := SetSum(G(f, d, p), AddC(d.r0, NotW(0), 1)).cpsr;
  }
  lemma Sub01(f: RegFile, d: Div, base: Word, p: Word, fe: nat, re: nat) returns (p': Word)
    requires d.r0 >= d.r1
    ensures StepOp(0x1A40, base, Exec(G(f, d, p), 2, fe, re)) == Exec(G(f, d.(r0 := d.r0 - d.r1), p'), 3, fe + 1, re)
    ensures Kept(p, p')
  {
    hide AddC, SetNz, AndW, OrW, XorW, MulW, With, C, Low, Pack, NotW;
    WithAt(f, d, d.r0 - d.r1); SumFacts(d.r0, d.r1); CompareFlags(d.r0, d.r1, G(f, d, p));
    p' := SetSum(G(f, d, p), AddC(d.r0, NotW(d.r1), 1)).cpsr;
  }
  lemma Sub04(f: RegFile, d: Div, base: Word, p: Word, at: int, fe: nat, re: nat) returns (p': Word)
    requires d.r0 >= d.r4
    ensures StepOp(0x1B00, base, Exec(G(f, d, p), at, fe, re))
      == Exec(G(f, d.(r0 := d.r0 - d.r4), p'), at + 1, fe + 1, re)
    ensures Kept(p, p')
  {
    hide AddC, SetNz, AndW, OrW, XorW, MulW, With, C, Low, Pack, NotW;
    WithAt(f, d, d.r0 - d.r4); SumFacts(d.r0, d.r4); CompareFlags(d.r0, d.r4, G(f, d, p));
    p' := SetSum(G(f, d, p), AddC(d.r0, NotW(d.r4), 1)).cpsr;
  }
  lemma Orr23(f: RegFile, d: Div, base: Word, p: Word, fe: nat, re: nat) returns (p': Word)
    ensures StepOp(0x431A, base, Exec(G(f, d, p), 3, fe, re))
      == Exec(G(f, d.(r2 := OrW(d.r2, d.r3)), p'), 4, fe + 1, re)
    ensures Kept(p, p')
  {
    hide AddC, SetSum, AndW, OrW, XorW, MulW, With, C, Low, Pack, NotW, Z, N, V;
    var x := OrW(d.r2, d.r3);
    WithAt(f, d, x); PackFields(Low(p), Neg31(x), x == 0, C(p), V(p));
    p' := Pack(Low(p), Neg31(x), x == 0, C(p), V(p));
  }
  lemma Orr24(f: RegFile, d: Div, base: Word, p: Word, at: int, fe: nat, re: nat) returns (p': Word)
    ensures StepOp(0x4322, base, Exec(G(f, d, p), at, fe, re))
      == Exec(G(f, d.(r2 := OrW(d.r2, d.r4)), p'), at + 1, fe + 1, re)
    ensures Kept(p, p')
  {
    hide AddC, SetSum, AndW, OrW, XorW, MulW, With, C, Low, Pack, NotW, Z, N, V;
    var x := OrW(d.r2, d.r4);
    WithAt(f, d, x); PackFields(Low(p), Neg31(x), x == 0, C(p), V(p));
    p' := Pack(Low(p), Neg31(x), x == 0, C(p), V(p));
  }
  function ShiftCpsr(p: Word, x: Word, c: bool): Word { Pack(Low(p), Neg31(x), x == 0, c, V(p)) }
  /** LSRS r4,r1,#k for k = 1..3. */
  lemma Shift41(f: RegFile, d: Div, base: Word, p: Word, k: nat, at: int, fe: nat, re: nat) returns (p': Word)
    requires 1 <= k <= 3
    ensures StepOp(0x080C + 64 * k, base, Exec(G(f, d, p), at, fe, re))
      == Exec(G(f, d.(r4 := Lsr(d.r1, k)), p'), at + 1, fe + 1, re)
    ensures Kept(p, p')
  {
    hide Lsr, BitOf, Lsl, Asr, OrW, With, Low, Pack, C, Z, N, V, ThumbDp;
    var x, c := Lsr(d.r1, k), BitOf(d.r1, k - 1);
    WithAt(f, d, x); PackFields(Low(p), Neg31(x), x == 0, c, V(p));
    p' := ShiftCpsr(p, x, c);
  }
  /** LSRS r4,r3,#k for k = 1..3. */
  lemma Shift43(f: RegFile, d: Div, base: Word, p: Word, k: nat, at: int, fe: nat, re: nat) returns (p': Word)
    requires 1 <= k <= 3
    ensures StepOp(0x081C + 64 * k, base, Exec(G(f, d, p), at, fe, re))
      == Exec(G(f, d.(r4 := Lsr(d.r3, k)), p'), at + 1, fe + 1, re)
    ensures Kept(p, p')
  {
    hide Lsr, BitOf, Lsl, Asr, OrW, With, Low, Pack, C, Z, N, V, ThumbDp;
    var x, c := Lsr(d.r3, k), BitOf(d.r3, k - 1);
    WithAt(f, d, x); PackFields(Low(p), Neg31(x), x == 0, c, V(p));
    p' := ShiftCpsr(p, x, c);
  }
  lemma Sixteenth(x: Word)
    ensures Lsr(x, 4) == x / 16 && BitOf(x, 3) == ((x / 8) % 2 == 1)
  { assert Pow2(4) == 16; assert Pow2(3) == 8; }
  lemma Shift33(f: RegFile, d: Div, base: Word, p: Word, fe: nat, re: nat) returns (p': Word)
    ensures d.r3 / 16 < 0x1_0000_0000
    ensures StepOp(0x091B, base, Exec(G(f, d, p), 24, fe, re)) == Exec(G(f, d.(r3 := d.r3 / 16), p'), 25, fe + 1, re)
    ensures Kept(p, p') && Z(p') == (d.r3 / 16 == 0) && C(p') == ((d.r3 / 8) % 2 == 1) && V(p') == V(p)
    ensures N(p') == Neg31(d.r3 / 16)
  {
    hide Lsr, BitOf, Lsl, Asr, OrW, With, Low, Pack, C, Z, N, V, ThumbDp;
    Sixteenth(d.r3);
    var x, c := Lsr(d.r3, 4), BitOf(d.r3, 3);
    WithAt(f, d, x); PackFields(Low(p), Neg31(x), x == 0, c, V(p));
    p' := ShiftCpsr(p, x, c);
  }
  lemma Shift11(f: RegFile, d: Div, base: Word, p: Word, fe: nat, re: nat) returns (p': Word)
    ensures d.r1 / 16 < 0x1_0000_0000
    ensures StepOp(0x0909, base, Exec(G(f, d, p), 26, fe, re)) == Exec(G(f, d.(r1 := d.r1 / 16), p'), 27, fe + 1, re)
    ensures Kept(p, p')
  {
    hide Lsr, BitOf, Lsl, Asr, OrW, With, Low, Pack, C, Z, N, V, ThumbDp;
    Sixteenth(d.r1);
    var x, c := Lsr(d.r1, 4), BitOf(d.r1, 3);
    WithAt(f, d, x); PackFields(Low(p), Neg31(x), x == 0, c, V(p));
    p' := ShiftCpsr(p, x, c);
  }
  lemma Branch(base: Word, g: Guest, at: int, fe: nat, re: nat)
    ensures StepOp(0xD301, base, Exec(g, at, fe, re)) == Exec(g, if C(g.cpsr) then at + 1 else at + 3, fe + 1, re + 1)
    ensures StepOp(0xD302, base, Exec(g, at, fe, re)) == Exec(g, if C(g.cpsr) then at + 1 else at + 4, fe + 1, re + 1)
    ensures StepOp(0xD003, base, Exec(g, at, fe, re)) == Exec(g, if Z(g.cpsr) then at + 5 else at + 1, fe + 1, re + 1)
    ensures StepOp(0xD001, base, Exec(g, at, fe, re)) == Exec(g, if Z(g.cpsr) then at + 3 else at + 1, fe + 1, re + 1)
    ensures StepOp(0xE7E3, base, Exec(g, at, fe, re)) == Exec(g, at - 27, fe + 1, re + 1)
  { hide C, Z, N, V, ThumbDp, ThumbShiftImm; }

  // ---- blocks --------------------------------------------------------------------

  lemma Then(n: nat, base: Word, s: Exec, t: Exec)
    requires Steps(n, base, s) == t && 0 <= t.at < 28
    ensures Steps(n + 1, base, s) == StepOp(Pattern()[t.at], base, t)
  { hide StepOp, Pattern; StepsAdd(n, 1, base, s); OneStep(base, t); }

  lemma FirstBlock(f: RegFile, d: Div, base: Word, p: Word, fe: nat, re: nat) returns (p': Word)
    ensures Steps(2 + FirstExtra(d), base, Exec(G(f, d, p), 0, fe, re))
      == Exec(G(f, FirstBit(d), p'), 4, fe + 2 + FirstExtra(d), re + 1)
    ensures Kept(p, p')
  {
    hide Steps, StepOp, OrW, With, C, Low;
    var s := Exec(G(f, d, p), 0, fe, re);
    var p1 := Cmp01(f, d, base, p, fe, re);
    OneStep(base, s);
    Branch(base, G(f, d, p1), 1, fe + 1, re);
    Then(1, base, s, Exec(G(f, d, p1), 1, fe + 1, re));
    p' := p1;
    if d.r0 >= d.r1 {
      Then(2, base, s, Exec(G(f, d, p1), 2, fe + 2, re + 1));
      var p2 := Sub01(f, d, base, p1, fe + 2, re + 1);
      var d2 := d.(r0 := d.r0 - d.r1);
      Then(3, base, s, Exec(G(f, d2, p2), 3, fe + 3, re + 1));
      p' := Orr23(f, d2, base, p2, fe + 3, re + 1);
    }
  }

  lemma PatternAt(k: nat)
    requires 1 <= k <= 3
    ensures var i := 6 * k - 2; var o := Pattern();
      o[i] == 0x080C + 64 * k && o[i + 1] == 0x42A0 && o[i + 2] == 0xD302 && o[i + 3] == 0x1B00
      && o[i + 4] == 0x081C + 64 * k && o[i + 5] == 0x4322
  {}
  lemma NextBlock(f: RegFile, d: Div, base: Word, p: Word, k: nat, fe: nat, re: nat) returns (p': Word)
    requires 1 <= k <= 3
    ensures var n := 3 + NextExtra(d, k);
      Steps(n, base, Exec(G(f, d, p), 6 * k - 2, fe, re)) == Exec(G(f, NextBit(d, k), p'), 6 * k + 4, fe + n, re + 1)
    ensures Kept(p, p')
  {
    hide Steps, StepOp, OrW, With, C, Low, Lsr, Pattern;
    PatternAt(k);
    var i := 6 * k - 2;
    var s := Exec(G(f, d, p), i, fe, re);
    var d1 := d.(r4 := Lsr(d.r1, k));
    var p1 := Shift41(f, d, base, p, k, i, fe, re);
    OneStep(base, s);
    Then(1, base, s, Exec(G(f, d1, p1), i + 1, fe + 1, re));
    var p2 := Cmp04(f, d1, base, p1, i + 1, fe + 1, re);
    Then(2, base, s, Exec(G(f, d1, p2), i + 2, fe + 2, re));
    Branch(base, G(f, d1, p2), i + 2, fe + 2, re);
    p' := p2;
    if d1.r0 >= d1.r4 {
      Then(3, base, s, Exec(G(f, d1, p2), i + 3, fe + 3, re + 1));
      p' := TakenBit(f, d, base, p2, k, s, fe, re);
    }
  }
  lemma TakenBit(f: RegFile, d: Div, base: Word, p: Word, k: nat, s: Exec, fe: nat, re: nat) returns (p': Word)
    requires 1 <= k <= 3 && d.r0 >= Lsr(d.r1, k)
    requires Steps(3, base, s) == Exec(G(f, d.(r4 := Lsr(d.r1, k)), p), 6 * k + 1, fe + 3, re + 1)
    ensures Steps(6, base, s) == Exec(G(f, NextBit(d, k), p'), 6 * k + 4, fe + 6, re + 1)
    ensures Kept(p, p')
  {
    hide Steps, StepOp, OrW, With, Low, Lsr, Pattern;
    PatternAt(k);
    var i := 6 * k - 2;
    var d1 := d.(r4 := Lsr(d.r1, k));
    Then(3, base, s, Exec(G(f, d1, p), i + 3, fe + 3, re + 1));
    var p1 := Sub04(f, d1, base, p, i + 3, fe + 3, re + 1);
    var d2 := d1.(r0 := d1.r0 - d1.r4);
    Then(4, base, s, Exec(G(f, d2, p1), i + 4, fe + 4, re + 1));
    var p2 := Shift43(f, d2, base, p1, k, i + 4, fe + 4, re + 1);
    var d3 := d2.(r4 := Lsr(d2.r3, k));
    Then(5, base, s, Exec(G(f, d3, p2), i + 5, fe + 5, re + 1));
    p' := Orr24(f, d3, base, p2, i + 5, fe + 5, re + 1);
  }

  lemma BitsBlock(f: RegFile, d: Div, base: Word, p: Word, fe: nat, re: nat) returns (p': Word)
    ensures Steps(RoundSeq(d), base, Exec(G(f, d, p), 0, fe, re))
      == Exec(G(f, Round(d), p'), 22, fe + RoundSeq(d), re + 4)
    ensures Kept(p, p')
  {
    hide Steps, StepOp, FirstBit, NextBit, FirstExtra, NextExtra, G, Low;
    var s := Exec(G(f, d, p), 0, fe, re);
    var d1, n1 := FirstBit(d), 2 + FirstExtra(d);
    var p1 := FirstBlock(f, d, base, p, fe, re);
    var d2, n2 := NextBit(d1, 1), 3 + NextExtra(d1, 1);
    var p2 := NextBlock(f, d1, base, p1, 1, fe + n1, re + 1);
    StepsAdd(n1, n2, base, s);
    var d3, n3 := NextBit(d2, 2), 3 + NextExtra(d2, 2);
    var p3 := NextBlock(f, d2, base, p2, 2, fe + n1 + n2, re + 2);
    StepsAdd(n1 + n2, n3, base, s);
    p' := NextBlock(f, d3, base, p3, 3, fe + n1 + n2 + n3, re + 3);
    StepsAdd(n1 + n2 + n3, 3 + NextExtra(d3, 3), base, s);
  }

  lemma FinalFlags(p: Word, p': Word, c: bool)
    requires Kept(p, p') && !N(p') && Z(p') && C(p') == c && !V(p')
    ensures p' == FinalCpsr(p, c)
  { Unpack(p'); hide Pack, Low, N, Z, C, V; }

  /** The tail of a turn whose r0 is zero: out through the first BEQ. */
  lemma ExitZero(f: RegFile, d: Div, base: Word, p: Word, fe: nat, re: nat)
    requires d.r0 == 0
    ensures Steps(2, base, Exec(G(f, d, p), 22, fe, re)) == Exec(G(f, d, FinalCpsr(p, true)), 28, fe + 2, re + 1)
  {
    hide Steps, StepOp, C, Z, N, V, With, Low, Pack, FinalCpsr;
    var s := Exec(G(f, d, p), 22, fe, re);
    OneStep(base, s);
    var p1 := Cmp0(f, d, base, p, 22, fe, re);
    Then(1, base, s, Exec(G(f, d, p1), 23, fe + 1, re));
    Branch(base, G(f, d, p1), 23, fe + 1, re);
    FinalFlags(p, p1, true);
  }
  /** The tail of a turn that uses the weights up or goes round again. */
  lemma TailTurn(f: RegFile, d: Div, base: Word, p: Word, fe: nat, re: nat) returns (p': Word)
    requires d.r0 != 0
    ensures d.r3 / 16 < 0x1_0000_0000 && d.r1 / 16 < 0x1_0000_0000
    ensures d.r3 / 16 == 0 ==>
      Steps(4, base, Exec(G(f, d, p), 22, fe, re))
      == Exec(G(f, d.(r3 := 0), FinalCpsr(p, (d.r3 / 8) % 2 == 1)), 28, fe + 4, re + 2)
    ensures d.r3 / 16 != 0 ==>
      Steps(6, base, Exec(G(f, d, p), 22, fe, re))
        == Exec(G(f, d.(r3 := d.r3 / 16, r1 := d.r1 / 16), p'), 0, fe + 6, re + 3)
    ensures Kept(p, p')
  {
    hide Steps, StepOp, C, Z, N, V, With, Low, Pack, FinalCpsr;
    var s := Exec(G(f, d, p), 22, fe, re);
    OneStep(base, s);
    var p1 := Cmp0(f, d, base, p, 22, fe, re);
    Then(1, base, s, Exec(G(f, d, p1), 23, fe + 1, re));
    Branch(base, G(f, d, p1), 23, fe + 1, re);
    Then(2, base, s, Exec(G(f, d, p1), 24, fe + 2, re + 1));
    var p2 := Shift33(f, d, base, p1, fe + 2, re + 1);
    var d2 := d.(r3 := d.r3 / 16);
    Then(3, base, s, Exec(G(f, d2, p2), 25, fe + 3, re + 1));
    Branch(base, G(f, d2, p2), 25, fe + 3, re + 1);
    p' := p2;
    if d.r3 / 16 == 0 { FinalFlags(p, p2, (d.r3 / 8) % 2 == 1); }
    else {
      Then(4, base, s, Exec(G(f, d2, p2), 26, fe + 4, re + 2));
      p' := Shift11(f, d2, base, p2, fe + 4, re + 2);
      var d3 := d2.(r1 := d.r1 / 16);
      Then(5, base, s, Exec(G(f, d3, p'), 27, fe + 5, re + 2));
      Branch(base, G(f, d3, p'), 27, fe + 5, re + 2);
    }
  }

  lemma FinalKept(p: Word, p': Word, c: bool)
    requires Kept(p, p')
    ensures FinalCpsr(p', c) == FinalCpsr(p, c)
  { hide Pack, Low; }

  lemma {:induction false} TraceFrom(f: RegFile, d: Div, base: Word, p: Word, fe: nat, re: nat)
    ensures var r := Summary(d);
      Steps(r.fetches, base, Exec(G(f, d, p), 0, fe, re))
        == Exec(G(f, r.d, FinalCpsr(p, r.c)), 28, fe + r.fetches, re + r.refills)
    decreases d.r3
  {
    hide Steps, StepOp, Round, RoundSeq, G, FinalCpsr, Kept;
    var s := Exec(G(f, d, p), 0, fe, re);
    R3Down(d);
    var d1, n := Round(d), RoundSeq(d);
    var p1 := BitsBlock(f, d, base, p, fe, re);
    if d1.r0 == 0 {
      ExitZero(f, d1, base, p1, fe + n, re + 4); StepsAdd(n, 2, base, s);
      FinalKept(p, p1, true);
    } else {
      var p2 := TailTurn(f, d1, base, p1, fe + n, re + 4);
      var c := (d1.r3 / 8) % 2 == 1;
      if d1.r3 / 16 == 0 { StepsAdd(n, 4, base, s); FinalKept(p, p1, c); }
      else {
        StepsAdd(n, 6, base, s);
        var d2 := d1.(r3 := d1.r3 / 16, r1 := d1.r1 / 16);
        TraceFrom(f, d2, base, p2, fe + n + 6, re + 7);
        StepsAdd(n + 6, Summary(d2).fetches, base, s);
        FinalKept(p, p1, Summary(d2).c); FinalKept(p1, p2, Summary(d2).c);
      }
    }
  }

  function Regs(g: Guest): Div { Div(g.r[0], g.r[1], g.r[2], g.r[3], g.r[4]) }

  /** From every register file and CPSR, the pattern run instruction by instruction leaves through
      its end after exactly the summary's fetches and refills, with its registers and flags and
      with r5..r15 and the other CPSR bits unchanged. */
  lemma TraceIsSummary(g: Guest, base: Word)
    ensures var r := Summary(Regs(g));
      Steps(r.fetches, base, Exec(g, 0, 0, 0)) == Exec(G(g.r, r.d, FinalCpsr(g.cpsr, r.c)), 28, r.fetches, r.refills)
  {
    assert g == G(g.r, Regs(g), g.cpsr);
    TraceFrom(g.r, Regs(g), base, g.cpsr, 0, 0);
    hide Steps, Summary, With, FinalCpsr;
  }
}
