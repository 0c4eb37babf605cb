/** Constant synthesis outside a segment: immediate, zero-extended, shifted or in a skipped island. */
module ConstSynth {
  import opened Words
  import opened Sh4
  import opened Pools

  // ---- the few encodings used, executed from the code itself ------------------------

  type Regs = f: seq<Word> | |f| == 16 witness seq(16, _ => 0)
  /** Host registers, T, and the index of the next halfword. */
  datatype Cpu = Cpu(r: Regs, t: bool, pc: nat)

  function Nib(h: Half, k: nat): nat { if k == 2 then (h / 256) % 16 else (h / 16) % 16 }
  function Sext(imm: nat): Word
    requires imm < 256
  { if imm >= 128 then imm + 0xFFFF_FF00 else imm }
  function Shift(x: Word, k: nat): Word { (x * Pow2(k)) % 0x1_0000_0000 }

  /** MOV #imm, EXTU.B, NOT, SHLL2/8/16, MOV.L @(disp,PC), BRA over a NOP, NOP; T is never written. */
  function StepH(org: nat, code: seq<Half>, s: Cpu): Option<Cpu> {
    if s.pc >= |code| then None
    else
      var h := code[s.pc];
      var n := Nib(h, 2);
      var next := s.(pc := s.pc + 1);
      if h / 0x1000 == 0xE then Some(next.(r := s.r[n := Sext(h % 256)]))
      else if h / 0x1000 == 0x6 && h % 16 == 0xC then Some(next.(r := s.r[n := s.r[Nib(h, 1)] % 256]))
      else if h / 0x1000 == 0x6 && h % 16 == 0x7 then Some(next.(r := s.r[n := NotW(s.r[Nib(h, 1)])]))
      else if h / 0x1000 == 0x4 && h % 256 in {0x28, 0x18, 0x08} then
        Some(next.(r := s.r[n := Shift(s.r[n], if h % 256 == 0x28 then 16 else if h % 256 == 0x18 then 8 else 2)]))
      else if h / 0x1000 == 0xD then
        var v := WordAt(code, LoadIndex(org, s.pc, h % 256));
        if v.None? then None else Some(next.(r := s.r[n := v.value]))
      else if h / 0x1000 == 0xA then
        var to := BraTarget(h, s.pc);
        if s.pc + 1 < |code| && code[s.pc + 1] == NOP_OP && to >= 0 then Some(s.(pc := to)) else None
      else if h == NOP_OP then Some(next)
      else None
  }
  function Steps(n: nat, org: nat, code: seq<Half>, s: Cpu): Option<Cpu> {
    if n == 0 then Some(s)
    else
      var s1 := StepH(org, code, s);
      if s1.None? then None else Steps(n - 1, org, code, s1.value)
  }

  // ---- the emitted code -----------------------------------------------------------

  predicate Imm8(v: Word) { v < 128 || v >= 0xFFFF_FF80 }
  function MovImm(rn: nat, b: nat): Half
    requires rn < 16 && b < 256
  { 0xE000 + 256 * rn + b }
  type Part = k: nat | k == 16 || k == 8 || k == 2 witness 2
  function ShiftOp(rn: nat, k: Part): Half
    requires rn < 16
  { 0x4000 + 256 * rn + (if k == 16 then 0x28 else if k == 8 then 0x18 else 0x08) }

  /** Shift counts tried, in this order; each is made of 16, 8 and 2. */
  const CANDIDATES: seq<nat> := [16, 8, 2, 24, 18, 10, 4, 26]
  function Parts(n: nat): seq<Part> {
    if n >= 16 then [16] + Parts(n - 16)
    else if n >= 8 then [8] + Parts(n - 8)
    else if n >= 2 then [2] + Parts(n - 2)
    else []
  }
  /** value shifted right by n arithmetically. */
  function Sar(value: Word, n: nat): int { Signed(value) / Pow2(n) }
  predicate Fits(value: Word, n: nat) { value % Pow2(n) == 0 && -128 <= Sar(value, n) <= 127 }
  /** First candidate from the k-th on. */
  function Pick(value: Word, k: nat): (r: Option<nat>)
    requires k <= 8
    ensures r.Some? ==> r.value in CANDIDATES && Fits(value, r.value)
    decreases 8 - k
  { if k == 8 then None else if Fits(value, CANDIDATES[k]) then Some(CANDIDATES[k]) else Pick(value, k + 1) }

  function Chain(rn: nat, ks: seq<Part>): (c: seq<Half>)
    requires rn < 16
    ensures |c| == |ks|
  { if ks == [] then [] else [ShiftOp(rn, ks[0])] + Chain(rn, ks[1..]) }

  /** The private island at half-address `at`: load, branch over, delay NOP, padding, word. */
  function Island(at: nat, value: Word, rn: nat): seq<Half>
    requires rn < 16
  {
    var pad := (at + 3) % 2;
    var lit := 3 + pad;
    [MovL(rn, (at + lit - (at - at % 2) - 2) / 2), BraOp(1, lit + 2), NOP_OP]
    + (if pad == 1 then [NOP_OP] else []) + [HiHalf(value), LoHalf(value)]
  }

  /** sh4g_const with no segment open. Its complement tier is left out: see NotTierIdle. */
  function ConstCode(at: nat, value: Word, rn: nat): seq<Half>
    requires rn < 16
  {
    if Imm8(value) then [MovImm(rn, value % 256)]
    else if 128 <= value <= 255 then [MovImm(rn, value), 0x600C + 272 * rn]
    else
      var n := if value % 4 == 0 then Pick(value, 0) else None;
      if n.Some? then [MovImm(rn, Sar(value, n.value) % 256)] + Chain(rn, Parts(n.value))
      else Island(at, value, rn)
  }

  /** The complement tier never applies: a value and its complement fit eight bits together. */
  lemma NotTierIdle(value: Word)
    ensures Imm8(NotW(value)) <==> Imm8(value)
  {}

  // ---- correctness -------------------------------------------------------------------

  lemma StepsAdd(n: nat, k: nat, org: nat, code: seq<Half>, s: Cpu, m: Cpu)
    requires Steps(n, org, code, s) == Some(m)
    ensures Steps(n + k, org, code, s) == Steps(k, org, code, m)
  { if n > 0 { StepsAdd(n - 1, k, org, code, StepH(org, code, s).value, m); } }
  lemma One(org: nat, code: seq<Half>, s: Cpu)
    ensures Steps(1, org, code, s) == StepH(org, code, s)
  { if StepH(org, code, s).Some? { assert Steps(0, org, code, StepH(org, code, s).value) == StepH(org, code, s); } }

  lemma Decodes(rn: nat, b: nat)
    requires rn < 16 && b < 256
    ensures var h := 0xE000 + 256 * rn + b; h / 0x1000 == 0xE && Nib(h, 2) == rn && h % 256 == b
    ensures var h := 0x600C + 272 * rn; h / 0x1000 == 6 && h % 16 == 0xC && Nib(h, 2) == rn && Nib(h, 1) == rn
  {
    var h := 0xE000 + 256 * rn + b;
    ModUnique(h, 0x1000, 0xE, 256 * rn + b); ModUnique(h, 0x100, 0xE0 + rn, b); ModUnique(0xE0 + rn, 16, 0xE, rn);
    var k := 0x600C + 272 * rn;
    ModUnique(k, 0x1000, 6, 12 + 272 * rn); ModUnique(k, 16, 0x600 + 17 * rn, 12);
    ModUnique(0x600 + 17 * rn, 16, 0x60 + rn, rn);
    ModUnique(k, 0x100, 0x60 + rn, 12 + 16 * rn); ModUnique(0x60 + rn, 16, 6, rn);
  }
  lemma RunMovImm(org: nat, code: seq<Half>, s: Cpu, rn: nat, b: nat)
    requires rn < 16 && b < 256 && s.pc < |code| && code[s.pc] == MovImm(rn, b)
    ensures StepH(org, code, s) == Some(Cpu(s.r[rn := Sext(b)], s.t, s.pc + 1))
  { Decodes(rn, b); hide Nib, Sext; }
  lemma RunExtu(org: nat, code: seq<Half>, s: Cpu, rn: nat)
    requires rn < 16 && s.pc < |code| && code[s.pc] == 0x600C + 272 * rn
    ensures StepH(org, code, s) == Some(Cpu(s.r[rn := s.r[rn] % 256], s.t, s.pc + 1))
  { Decodes(rn, 0); hide Nib, Sext; }
  lemma RunShift(org: nat, code: seq<Half>, s: Cpu, rn: nat, k: Part)
    requires rn < 16 && s.pc < |code| && code[s.pc] == ShiftOp(rn, k)
    ensures StepH(org, code, s) == Some(Cpu(s.r[rn := Shift(s.r[rn], k)], s.t, s.pc + 1))
  { hide Shift; }
  lemma RunLoad(org: nat, code: seq<Half>, s: Cpu, rn: nat, disp: nat)
    requires rn < 16 && disp < 256 && s.pc < |code| && code[s.pc] == MovL(rn, disp)
    requires WordAt(code, LoadIndex(org, s.pc, disp)).Some?
    ensures StepH(org, code, s) == Some(Cpu(s.r[rn := WordAt(code, LoadIndex(org, s.pc, disp)).value], s.t, s.pc + 1))
  { hide WordAt, LoadIndex; }
  lemma RunBra(org: nat, code: seq<Half>, s: Cpu, to: nat)
    requires s.pc + 2 <= to <= s.pc + 1000 && s.pc + 1 < |code| && code[s.pc] == BraOp(s.pc, to)
    requires code[s.pc + 1] == NOP_OP
    ensures StepH(org, code, s) == Some(s.(pc := to))
  { BraExact(s.pc, to); }

  function Sum(ks: seq<Part>): nat { if ks == [] then 0 else ks[0] + Sum(ks[1..]) }
  lemma {:induction false} PartsSum(n: nat)
    requires n % 2 == 0
    ensures Sum(Parts(n)) == n
    decreases n
  { if n >= 16 { PartsSum(n - 16); } else if n >= 8 { PartsSum(n - 8); } else if n >= 2 { PartsSum(n - 2); } }

  lemma ShiftTwice(x: Word, a: nat, b: nat)
    ensures Shift(Shift(x, a), b) == Shift(x, a + b)
  {
    Pow2Sum(a, b);
    hide Pow2;
    ScaleTwice(x, Pow2(a), Pow2(b));
  }
  lemma ScaleTwice(x: Word, p: nat, q: nat)
    ensures (((x * p) % 0x1_0000_0000) * q) % 0x1_0000_0000 == (x * (p * q)) % 0x1_0000_0000
  {
    var m := 0x1_0000_0000;
    var k, r := (x * p) / m, (x * p) % m;
    var k2, r2 := (r * q) / m, (r * q) % m;
    assert x * p == k * m + r && r * q == k2 * m + r2;
    Spread(x, p, q, k, r, m);
    assert x * (p * q) == (k * q + k2) * m + r2 by { assert (k * q + k2) * m == (k * q) * m + k2 * m; }
    ModUnique(x * (p * q), m, k * q + k2, r2);
  }
  lemma Spread(x: nat, p: nat, q: nat, k: nat, r: nat, m: nat)
    requires x * p == k * m + r
    ensures x * (p * q) == (k * q) * m + r * q
  {
    assert x * (p * q) == (x * p) * q;
    assert (k * m + r) * q == (k * m) * q + r * q;
    assert (k * m) * q == (k * q) * m;
  }

  lemma {:induction false} RunChain(org: nat, code: seq<Half>, s: Cpu, rn: nat, ks: seq<Part>)
    requires rn < 16
    requires s.pc + |ks| <= |code| && code[s.pc..s.pc + |ks|] == Chain(rn, ks)
    ensures Steps(|ks|, org, code, s) == Some(Cpu(s.r[rn := Shift(s.r[rn], Sum(ks))], s.t, s.pc + |ks|))
    decreases |ks|
  {
    hide StepH, Shift;
    if ks == [] { ShiftNone(s.r[rn]); assert s.r[rn := s.r[rn]] == s.r; }
    else {
      var c := code[s.pc..s.pc + |ks|];
      assert c[0] == code[s.pc];
      RunShift(org, code, s, rn, ks[0]);
      var s1 := Cpu(s.r[rn := Shift(s.r[rn], ks[0])], s.t, s.pc + 1);
      assert code[s1.pc..s1.pc + |ks[1..]|] == c[1..];
      RunChain(org, code, s1, rn, ks[1..]);
      ShiftTwice(s.r[rn], ks[0], Sum(ks[1..]));
      assert s.r[rn := Shift(s.r[rn], ks[0])][rn := Shift(s1.r[rn], Sum(ks[1..]))] == s.r[rn := Shift(s1.r[rn],
          Sum(ks[1..]))];
    }
  }
  lemma ShiftNone(x: Word) ensures Shift(x, 0) == x {}

  lemma SignedQuotient(value: Word, p: nat, h: nat)
    requires p > 0 && p * h == 0x1_0000_0000 && value % p == 0
    ensures Signed(value) == (Signed(value) / p) * p
  {
    var q: int := value / p;
    assert value == q * p;
    if Neg31(value) {
      assert (q - h) * p == q * p - p * h;
      ModUnique(Signed(value), p, q - h, 0);
    }
  }
  lemma BackUp(value: Word, p: int, sv: int, f: int)
    requires Signed(value) == sv * p && p > 0
    ensures ((sv + f * 0x1_0000_0000) * p) % 0x1_0000_0000 == value
  {
    var e: int := if Neg31(value) then 1 else 0;
    assert (sv + f * 0x1_0000_0000) * p == sv * p + (f * p) * 0x1_0000_0000;
    ModUnique((sv + f * 0x1_0000_0000) * p, 0x1_0000_0000, f * p - e, value);
  }
  /** A fitting constant is its byte, sign-extended and shifted back up. */
  lemma ShiftBack(value: Word, n: nat)
    requires n <= 32 && Fits(value, n)
    ensures Shift(Sext(Sar(value, n) % 256), n) == value
  {
    Pow2Sum(n, 32 - n); Pow2Is32();
    hide Pow2, Signed, Sext;
    var sv := Sar(value, n);
    SignedQuotient(value, Pow2(n), Pow2(32 - n));
    SextIs(sv);
    BackUp(value, Pow2(n), sv, if sv < 0 then 1 else 0);
  }
  lemma SextIs(sv: int)
    requires -128 <= sv <= 127
    ensures Sext(sv % 256) == if sv < 0 then sv + 0x1_0000_0000 else sv
  {}

  /** Machine steps the constant takes. */
  function StepCount(value: Word): nat {
    if Imm8(value) then 1 else if 128 <= value <= 255 then 2
    else
      var n := if value % 4 == 0 then Pick(value, 0) else None;
      if n.Some? then 1 + |Parts(n.value)| else 2
  }

  /** For every 32-bit constant, register, address and surrounding code, running the emitted
      halfwords loads exactly the constant, touches nothing else, and falls out at their end. */
  lemma ConstCorrect(org: nat, before: seq<Half>, value: Word, rn: nat, after: seq<Half>, s: Cpu)
    requires rn < 16 && s.pc == |before|
    ensures var c := ConstCode(org + |before|, value, rn);
      Steps(StepCount(value), org, before + c + after, s) == Some(Cpu(s.r[rn := value], s.t, |before| + |c|))
  {
    hide StepH, Steps, Pick;
    var n := if value % 4 == 0 then Pick(value, 0) else None;
    if Imm8(value) { ConstImm(org, before, value, rn, after, s); }
    else if 128 <= value <= 255 { ConstByte(org, before, value, rn, after, s); }
    else if n.Some? { ConstShift(org, before, value, rn, after, s, n.value); }
    else { ConstIsland(org, before, value, rn, after, s); }
  }
  lemma ConstImm(org: nat, before: seq<Half>, value: Word, rn: nat, after: seq<Half>, s: Cpu)
    requires rn < 16 && s.pc == |before| && Imm8(value)
    ensures Steps(1, org, before + [MovImm(rn, value % 256)] + after, s)
      == Some(Cpu(s.r[rn := value], s.t, |before| + 1))
  {
    hide StepH;
    var code := before + [MovImm(rn, value % 256)] + after;
    RunMovImm(org, code, s, rn, value % 256); One(org, code, s);
  }
  lemma ConstByte(org: nat, before: seq<Half>, value: Word, rn: nat, after: seq<Half>, s: Cpu)
    requires rn < 16 && s.pc == |before| && 128 <= value <= 255
    ensures Steps(2, org, before + [MovImm(rn, value), 0x600C + 272 * rn] + after, s)
      == Some(Cpu(s.r[rn := value], s.t, |before| + 2))
  {
    hide StepH;
    var code := before + [MovImm(rn, value), 0x600C + 272 * rn] + after;
    RunMovImm(org, code, s, rn, value); One(org, code, s);
    var s1 := Cpu(s.r[rn := Sext(value)], s.t, s.pc + 1);
    RunExtu(org, code, s1, rn); One(org, code, s1);
    StepsAdd(1, 1, org, code, s, s1);
    assert Sext(value) % 256 == value;
    assert s.r[rn := Sext(value)][rn := value] == s.r[rn := value];
  }
  lemma ConstShift(org: nat, before: seq<Half>, value: Word, rn: nat, after: seq<Half>, s: Cpu, n: nat)
    requires rn < 16 && s.pc == |before| && n in CANDIDATES && Fits(value, n)
    ensures Steps(1 + |Parts(n)|, org, before + ([MovImm(rn, Sar(value, n) % 256)] + Chain(rn, Parts(n))) + after, s)
      == Some(Cpu(s.r[rn := value], s.t, |before| + 1 + |Parts(n)|))
  {
    hide StepH, Fits, Chain, Parts, Shift, Sar;
    FitsRange(value, n);
    var b, ks := Sar(value, n) % 256, Parts(n);
    var code := before + ([MovImm(rn, b)] + Chain(rn, ks)) + after;
    RunMovImm(org, code, s, rn, b); One(org, code, s);
    var s1 := Cpu(s.r[rn := Sext(b)], s.t, s.pc + 1);
    assert code[s1.pc..s1.pc + |ks|] == Chain(rn, ks);
    RunChain(org, code, s1, rn, ks);
    PartsSum(n); ShiftBack(value, n);
    StepsAdd(1, |ks|, org, code, s, s1);
    assert s.r[rn := Sext(b)][rn := value] == s.r[rn := value];
  }
  lemma FitsRange(value: Word, n: nat)
    requires n in CANDIDATES && Fits(value, n)
    ensures n <= 32 && n % 2 == 0 && -128 <= Sar(value, n) <= 127
  { hide Sar; assert n in {16, 8, 2, 24, 18, 10, 4, 26}; }
  lemma ConstIsland(org: nat, before: seq<Half>, value: Word, rn: nat, after: seq<Half>, s: Cpu)
    requires rn < 16 && s.pc == |before|
    ensures var c := Island(org + |before|, value, rn);
      Steps(2, org, before + c + after, s) == Some(Cpu(s.r[rn := value], s.t, |before| + |c|))
  {
    hide StepH;
    var at := org + |before|;
    var pad := (at + 3) % 2;
    var lit := 3 + pad;
    var disp := (at + lit - (at - at % 2) - 2) / 2;
    var c := Island(at, value, rn);
    var code := before + c + after;
    assert disp < 256 && LoadIndex(org, s.pc, disp) == |before| + lit;
    assert code[|before| + lit] == HiHalf(value) && code[|before| + lit + 1] == LoHalf(value);
    assert WordAt(code, |before| + lit) == Some(value);
    RunLoad(org, code, s, rn, disp); One(org, code, s);
    var s1 := Cpu(s.r[rn := value], s.t, s.pc + 1);
    BraShift(|before|, lit);
    RunBra(org, code, s1, |before| + lit + 2); One(org, code, s1);
    StepsAdd(1, 1, org, code, s, s1);
  }
  lemma BraShift(b: nat, lit: nat) ensures BraOp(1, lit + 2) == BraOp(b + 1, b + lit + 2) {}

  // ---- emission ------------------------------------------------------------------------

  class Constants {
    const org: nat
    var code: seq<Half>
    constructor (org: nat) ensures this.org == org && code == [] { this.org := org; code := []; }

    method Half1(h: Half)
      modifies this
      ensures code == old(code) + [h]
    { code := code + [h]; }

    /** The shift loops after the MOV: by sixteens, eights and twos. */
    method Shifts(rn: nat, n: nat)
      requires rn < 16
      modifies this
      ensures code == old(code) + Chain(rn, Parts(n))
    {
      hide Chain, Parts, ShiftOp;
      var r: nat := n;
      while r >= 16
        invariant r <= n
        invariant code + Chain(rn, Parts(r)) == old(code) + Chain(rn, Parts(n))
      { NextPart(rn, r); Half1(ShiftOp(rn, 16)); r := r - 16; }
      while r >= 8
        invariant r < 16
        invariant code + Chain(rn, Parts(r)) == old(code) + Chain(rn, Parts(n))
      { NextPart(rn, r); Half1(ShiftOp(rn, 8)); r := r - 8; }
      while r >= 2
        invariant r < 8
        invariant code + Chain(rn, Parts(r)) == old(code) + Chain(rn, Parts(n))
      { NextPart(rn, r); Half1(ShiftOp(rn, 2)); r := r - 2; }
      NoPart(rn, r);
    }

    method Search(value: Word) returns (n: Option<nat>)
      ensures n == Pick(value, 0)
    {
      hide Fits;
      var k := 0;
      while k < 8
        invariant k <= 8 && Pick(value, 0) == Pick(value, k)
      {
        if Fits(value, CANDIDATES[k]) { return Some(CANDIDATES[k]); }
        k := k + 1;
      }
      return None;
    }

    method Load(value: Word, rn: nat)
      requires rn < 16
      modifies this
      ensures code == old(code) + ConstCode(org + old(|code|), value, rn)
    {
      hide Chain, Parts, Pick, Fits, Sar;
      if Imm8(value) { Half1(MovImm(rn, value % 256)); return; }
      if 128 <= value <= 255 {
        Half1(MovImm(rn, value));
        Half1(0x600C + 272 * rn);
        return;
      }
      if value % 4 == 0 {
        var n := Search(value);
        if n.Some? {
          Half1(MovImm(rn, Sar(value, n.value) % 256));
          Shifts(rn, n.value);
          return;
        }
      }
      LoadIsland(value, rn);
    }
    method LoadIsland(value: Word, rn: nat)
      requires rn < 16
      modifies this
      ensures code == old(code) + Island(org + old(|code|), value, rn)
    {
      var at := org + |code|;
      var lit := at + 3 + (at + 3) % 2;
      Half1(MovL(rn, (lit - (at - at % 2) - 2) / 2));
      Half1(BraOp(org + |code|, lit + 2));
      Half1(NOP_OP);
      while org + |code| < lit
        invariant lit - 1 <= org + |code| <= lit && |old(code)| + 3 <= |code|
        invariant code == old(code) + [MovL(rn, (lit - (at - at % 2) - 2) / 2), BraOp(at + 1, lit + 2), NOP_OP]
          + (if |code| == |old(code)| + 3 then [] else [NOP_OP])
        decreases lit - (org + |code|)
      { Half1(NOP_OP); }
      Half1(HiHalf(value));
      Half1(LoHalf(value));
      BraShift(at, lit - at);
    }
  }
  function Top(r: nat): Part { if r >= 16 then 16 else if r >= 8 then 8 else 2 }
  lemma NextPart(rn: nat, r: nat)
    requires rn < 16 && r >= 2
    ensures Chain(rn, Parts(r)) == [ShiftOp(rn, Top(r))] + Chain(rn, Parts(r - Top(r)))
  { assert Parts(r)[1..] == Parts(r - Top(r)); }
  lemma NoPart(rn: nat, r: nat)
    requires rn < 16 && r < 2
    ensures Parts(r) == [] && Chain(rn, Parts(r)) == []
  {}
}
