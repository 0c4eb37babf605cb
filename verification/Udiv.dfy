/** The Thumb divide-loop summary: against its 28-halfword pattern run instruction by
    instruction, and as a division. */
module Udiv {
  import opened Words
  import opened Guest

  // ---- the summary ------------------------------------------------------------

  datatype Div = Div(r0: Word, r1: Word, r2: Word, r3: Word, r4: Word)

  /** The first quotient bit, at r1 and r3 themselves. */
  function FirstBit(d: Div): Div {
    if d.r0 >= d.r1 then d.(r0 := d.r0 - d.r1, r2 := OrW(d.r2, d.r3)) else d
  }
  /** A further quotient bit, at r1 and r3 shifted down by k. */
  function NextBit(d: Div, k: nat): Div {
    var t := Lsr(d.r1, k);
    if d.r0 >= t then d.(r0 := d.r0 - t, r2 := OrW(d.r2, Lsr(d.r3, k)), r4 := Lsr(d.r3, k)) else d.(r4 := t)
  }
  function Round(d: Div): Div { NextBit(NextBit(NextBit(FirstBit(d), 1), 2), 3) }

  /** Instructions fetched for one bit beyond the comparison when it is set. */
  function FirstExtra(d: Div): nat { if d.r0 >= d.r1 then 2 else 0 }
  function NextExtra(d: Div, k: nat): nat { if d.r0 >= Lsr(d.r1, k) then 3 else 0 }
  function RoundSeq(d: Div): nat {
    2 + FirstExtra(d) + 3 + NextExtra(FirstBit(d), 1) + 3 + NextExtra(NextBit(FirstBit(d), 1), 2)
    + 3 + NextExtra(NextBit(NextBit(FirstBit(d), 1), 2), 3)
  }

  datatype Result = Result(d: Div, c: bool, fetches: nat, refills: nat)
  function Plus(r: Result, fetches: nat, refills: nat): Result {
    r.(fetches := fetches + r.fetches, refills := refills + r.refills)
  }

  lemma R3Down(d: Div)
    ensures Round(d).r3 == d.r3 && Round(d).r1 == d.r1
    ensures d.r3 / 16 < 0x1_0000_0000 && (d.r3 > 0 ==> d.r3 / 16 < d.r3)
  { hide OrW, Lsr; }

  /** cgba_sh4_thumb_udiv_loop_run. */
  function Summary(d: Div): Result
    decreases d.r3
  {
    R3Down(d);
    var d1 := Round(d);
    var n := RoundSeq(d) + 2;
    if d1.r0 == 0 then Result(d1, true, n, 5)
    else
      var d2 := d1.(r3 := d1.r3 / 16);
      var c := (d1.r3 / 8) % 2 == 1;
      if d2.r3 == 0 then Result(d2, c, n + 2, 6)
      else Plus(Summary(d2.(r1 := d2.r1 / 16)), n + 4, 7)
  }
  function FinalCpsr(cpsr: Word, c: bool): Word { Pack(Low(cpsr), false, true, c, false) }

  datatype Out = Out(d: Div, cpsr: Word, fetches: nat, refills: nat, cycles: nat)

  function Cycles(fetches: nat, seqCost: nat, refills: nat, nseqCost: nat): nat
  { fetches * seqCost + refills * nseqCost }

  method Run(d0: Div, cpsr: Word, seqCost: nat, nseqCost: nat) returns (out: Out)
    ensures var s := Summary(d0);
      out == Out(s.d, FinalCpsr(cpsr, s.c), s.fetches, s.refills, Cycles(s.fetches, seqCost, s.refills, nseqCost))
  {
    hide FinalCpsr, Round, RoundSeq;
    var d, fetches: nat, refills: nat, c, done := d0, 0, 0, true, false;
    while !done
      invariant Summary(d0) == if done then Result(d, c, fetches, refills) else Plus(Summary(d), fetches, refills)
      decreases !done, d.r3
    {
      R3Down(d);
      var n;
      d, n := Bits(d);
      fetches, refills := fetches + n + 2, refills + 5;
      if d.r0 == 0 { c, done := true, true; }
      else {
        c := (d.r3 / 8) % 2 == 1;
        d := d.(r3 := d.r3 / 16);
        fetches, refills := fetches + 2, refills + 1;
        if d.r3 == 0 { done := true; }
        else {
          d := d.(r1 := d.r1 / 16);
          fetches, refills := fetches + 2, refills + 1;
        }
      }
    }
    out := Out(d, FinalCpsr(cpsr, c), fetches, refills, Cycles(fetches, seqCost, refills, nseqCost));
  }
  /** The four quotient bits of one turn. */
  method Bits(d: Div) returns (d1: Div, n: nat)
    ensures d1 == Round(d) && n == RoundSeq(d)
  {
    hide OrW, Lsr;
    d1, n := d, 2;
    if d.r0 >= d.r1 { d1, n := d.(r0 := d.r0 - d.r1, r2 := OrW(d.r2, d.r3)), 4; }
    d1, n := Quotient(d1, 1, n);
    d1, n := Quotient(d1, 2, n);
    d1, n := Quotient(d1, 3, n);
  }
  /** One of the three shifted quotient bits. */
  method Quotient(d: Div, k: nat, n0: nat) returns (d1: Div, n: nat)
    ensures d1 == NextBit(d, k) && n == n0 + 3 + NextExtra(d, k)
  {
    d1, n := d.(r4 := Lsr(d.r1, k)), n0 + 3;
    if d1.r0 >= d1.r4 {
      d1 := d1.(r0 := d1.r0 - d1.r4);
      d1 := d1.(r4 := Lsr(d1.r3, k));
      d1, n := d1.(r2 := OrW(d1.r2, d1.r4)), n + 3;
    }
  }

  // ---- bounds -----------------------------------------------------------------

  lemma RoundShort(d: Div) ensures RoundSeq(d) <= 22 { hide FirstBit, NextBit, Lsr; }
  function Pow16(k: nat): nat { if k == 0 then 1 else 16 * Pow16(k - 1) }
  lemma {:induction false} Rounds(d: Div, k: nat)
    requires d.r3 < Pow16(k) && k > 0
    ensures Summary(d).fetches <= 28 * k && Summary(d).refills <= 7 * k
    decreases k
  {
    hide Round, RoundSeq;
    RoundShort(d); R3Down(d);
    var d1 := Round(d);
    if d1.r0 != 0 && d1.r3 / 16 != 0 {
      assert d1.r3 / 16 < Pow16(k - 1);
      Rounds(d1.(r3 := d1.r3 / 16, r1 := d1.r1 / 16), k - 1);
    }
  }
  /** At most eight rounds and 224 fetches from any state, so with byte-sized costs the cycle
      product stays far below 32 bits. */
  lemma Bounded(d: Div, seqCost: nat, nseqCost: nat)
    requires seqCost < 256 && nseqCost < 256
    ensures var s := Summary(d);
      s.fetches <= 224 && s.refills <= 56 && Cycles(s.fetches, seqCost, s.refills, nseqCost) < 0x2_0000
  {
    assert Pow16(4) == 0x1_0000;
    assert Pow16(8) == 16 * (16 * (16 * (16 * Pow16(4))));
    Rounds(d, 8);
    var s := Summary(d);
    Product(s.fetches, seqCost, 224); Product(s.refills, nseqCost, 56);
    hide Summary;
  }
  lemma Product(x: nat, c: nat, m: nat) requires x <= m && c <= 255 ensures x * c <= m * 255 {}

  // ---- the quotient --------------------------------------------------------------

  /** Before the bit of weight Pow2(m - k): that much of n over den is in r2, the rest in r0.
      Once the weights are used up the quotient is complete (r0 need not be the remainder). */
  ghost predicate Mid(n: nat, den: nat, base: nat, s: Div, k: nat, m: nat)
    requires den > 0
  {
    s.r2 >= base
    && if k <= m then
         var w := Pow2(m - k);
         s.r2 % (2 * w) == 0 && s.r0 < 2 * (den * w) && n == den * (s.r2 - base) + s.r0
       else s.r2 - base == n / den
  }

  lemma EvenQuotient(x: nat, w: nat)
    requires w > 0 && x % (2 * w) == 0
    ensures (x / w) % 2 == 0
  {
    var q := x / (2 * w);
    assert x == (2 * w) * q;
    assert (2 * w) * q == (2 * q) * w;
    ModUnique(x, w, 2 * q, 0);
  }
  lemma OrWeight(x: Word, m: nat)
    requires x % (2 * Pow2(m)) == 0 && Pow2(m) < 0x1_0000_0000
    ensures OrW(x, Pow2(m)) == x + Pow2(m)
  {
    EvenQuotient(x, Pow2(m));
    BitTest(x, m);
    hide Pow2, Bitwise;
    OrAdd(x, Pow2(m));
  }
  lemma Halves(x: nat, w: nat)
    requires w > 0 && x % (2 * w) == 0
    ensures x % w == 0 && (x + w) % w == 0
  {
    var q := x / (2 * w);
    assert x == (2 * w) * q;
    ModUnique(x, w, 2 * q, 0); ModUnique(x + w, w, 2 * q + 1, 0);
  }
  lemma OrNothing(x: Word) ensures OrW(x, 0) == x { OrComm(x, 0); OrLeft(x); }
  lemma OrLeft(x: Word) ensures OrW(0, x) == x { OrAdd(0, x) by { AndNone(x); } }
  lemma AndNone(x: nat) ensures Bitwise(BAnd, 0, x) == 0 { BitwiseComm(BAnd, 0, x); AndZero(x); }

  /** Arithmetic of one quotient bit of weight w. */
  lemma TakeBit(n: nat, den: nat, q: nat, r: nat, w: nat, t: nat)
    requires den > 0 && w > 0 && t == den * w && n == den * q + r && r < 2 * t
    ensures r >= t ==> n == den * (q + w) + (r - t) && r - t < t
  {}
  lemma WholeQuotient(n: nat, den: nat, q: nat, r: nat)
    requires den > 0 && n == den * q + r && r < den
    ensures n / den == q
  { ModUnique(n, den, q, r); }

  /** The bit of weight Pow2(m - k), for k at most m, with r1 and r3 shifted down to match. */
  lemma StepMid(n: nat, den: nat, base: nat, s: Div, s': Div, k: nat, m: nat)
    requires den > 0 && k <= m && Mid(n, den, base, s, k, m) && Pow2(m - k) < 0x1_0000_0000
    requires var t, w := den * Pow2(m - k), Pow2(m - k);
      if s.r0 >= t then s'.r0 == s.r0 - t && s'.r2 == OrW(s.r2, w) else s'.r0 == s.r0 && s'.r2 == s.r2
    ensures Mid(n, den, base, s', k + 1, m)
  {
    var w := Pow2(m - k);
    var t := den * w;
    TakeBit(n, den, s.r2 - base, s.r0, w, t);
    if s.r0 >= t { OrWeight(s.r2, m - k); }
    Halves(s.r2, w);
    if k == m { WholeQuotient(n, den, s'.r2 - base, s'.r0); }
    else { DoublePow(m - k, den); }
    hide OrW, Pow2;
  }
  lemma DoublePow(j: nat, den: nat)
    requires j > 0
    ensures Pow2(j) == 2 * Pow2(j - 1) && den * Pow2(j) == 2 * (den * Pow2(j - 1))
  {}

  lemma Exact(x: nat, p: nat, w: nat)
    requires p > 0 && x == p * w
    ensures x / p == w
  { ModUnique(x, p, w, 0); }
  lemma Scaled(den: nat, p: nat, w: nat) ensures den * (p * w) == p * (den * w) {}
  lemma LargerPow(m: nat, k: nat)
    requires m < k
    ensures Pow2(m) < Pow2(k)
  { if m + 1 < k { LargerPow(m, k - 1); } }
  lemma ShiftedDown(den: nat, r1: Word, r3: Word, k: nat, m: nat)
    requires r3 == Pow2(m) && r1 == den * r3
    ensures k <= m ==> Lsr(r3, k) == Pow2(m - k) && Lsr(r1, k) == den * Pow2(m - k)
    ensures k > m ==> Lsr(r3, k) == 0
  {
    hide Pow2;
    if k <= m {
      Pow2Sum(k, m - k);
      Exact(r3, Pow2(k), Pow2(m - k));
      Scaled(den, Pow2(k), Pow2(m - k));
      Exact(r1, Pow2(k), den * Pow2(m - k));
    } else { LargerPow(m, k); SmallQuotient(r3, Pow2(k)); }
  }
  lemma SmallQuotient(x: nat, p: nat) requires x < p ensures x / p == 0 { ModUnique(x, p, 0, x); }

  lemma NextMid(n: nat, den: nat, base: nat, s: Div, k: nat, m: nat)
    requires den > 0 && s.r3 == Pow2(m) && s.r1 == den * s.r3 && Mid(n, den, base, s, k, m) && k > 0
    ensures Mid(n, den, base, NextBit(s, k), k + 1, m)
  {
    ShiftedDown(den, s.r1, s.r3, k, m);
    if k <= m { hide OrW, Lsr; StepMid(n, den, base, s, NextBit(s, k), k, m); }
    else { OrNothing(s.r2); hide OrW, Lsr; }
  }
  lemma RoundMid(n: nat, den: nat, base: nat, s: Div, m: nat)
    requires den > 0 && s.r3 == Pow2(m) && s.r1 == den * s.r3 && Mid(n, den, base, s, 0, m)
    ensures Mid(n, den, base, Round(s), 4, m)
  {
    StepMid(n, den, base, s, FirstBit(s), 0, m) by { hide OrW; }
    Keeps(s);
    hide OrW, Lsr, Mid, NextBit, FirstBit;
    NextMid(n, den, base, FirstBit(s), 1, m);
    NextMid(n, den, base, NextBit(FirstBit(s), 1), 2, m);
    NextMid(n, den, base, NextBit(NextBit(FirstBit(s), 1), 2), 3, m);
  }
  lemma Keeps(s: Div)
    ensures FirstBit(s).r3 == s.r3 && FirstBit(s).r1 == s.r1
    ensures forall d: Div, k: nat :: NextBit(d, k).r3 == d.r3 && NextBit(d, k).r1 == d.r1
  { hide OrW, Lsr; }

  lemma Down16(den: nat, r1: Word, r3: Word, m: nat)
    requires r3 == Pow2(m) && r1 == den * r3
    ensures if m >= 4 then r3 / 16 == Pow2(m - 4) && r1 / 16 == den * (r3 / 16) && r3 / 16 > 0 else r3 / 16 == 0
  {
    assert Pow2(4) == 16;
    ShiftedDown(den, r1, r3, 4, m);
  }

  lemma {:induction false} DivideFrom(n: nat, den: nat, base: nat, s: Div, m: nat)
    requires den > 0 && s.r3 == Pow2(m) && s.r1 == den * s.r3 && Mid(n, den, base, s, 0, m)
    ensures Summary(s).d.r2 == base + n / den
    decreases m
  {
    hide OrW, Lsr, Round, RoundSeq;
    RoundMid(n, den, base, s, m); R3Down(s); Down16(den, s.r1, s.r3, m);
    var d1 := Round(s);
    if d1.r0 == 0 {
      if m >= 4 { WholeQuotient(n, den, d1.r2 - base, 0); }
    } else if m >= 4 {
      NextWeights(n, den, base, d1, d1.(r3 := d1.r3 / 16, r1 := d1.r1 / 16), m);
      DivideFrom(n, den, base, d1.(r3 := d1.r3 / 16, r1 := d1.r1 / 16), m - 4);
    }
  }
  lemma NextWeights(n: nat, den: nat, base: nat, s: Div, s': Div, m: nat)
    requires den > 0 && m >= 4 && Mid(n, den, base, s, 4, m) && s'.r0 == s.r0 && s'.r2 == s.r2
    ensures Mid(n, den, base, s', 0, m - 4)
  {}

  /** From an aligned entry the loop adds the quotient to r2: r1 is the divisor scaled by the power
      of two r3, r0 is below twice that, and r2 is clear below 2*r3. */
  lemma Divides(d: Div, den: nat, m: nat)
    requires den > 0 && d.r3 == Pow2(m) && d.r1 == den * d.r3 && d.r0 < 2 * d.r1 && d.r2 % (2 * d.r3) == 0
    ensures Summary(d).d.r2 == d.r2 + d.r0 / den
  {
    assert Mid(d.r0, den, d.r2, d, 0, m);
    DivideFrom(d.r0, den, d.r2, d, m);
  }
  // ---- what is left in r0 ------------------------------------------------------------

  /** r less the divisor's halves, quarters, ... down to the j-th, each where it still fits. */
  function Shaved(r: nat, den: nat, j: nat): (x: nat)
    ensures x <= r
  {
    if j == 0 then r
    else
      var x, t := Shaved(r, den, j - 1), Quotient2(den, j);
      if x >= t then x - t else x
  }
  function Quotient2(den: nat, j: nat): nat { DivN(den, Pow2(j)) }
  function DivN(x: nat, p: nat): nat
    requires p > 0
  { x / p }
  /** Past the last weight the loop keeps comparing r0 with r1 shifted below the divisor. */
  ghost predicate Past(n: nat, den: nat, s: Div, k: nat, m: nat)
    requires den > 0
  { k > m ==> s.r0 == Shaved(n % den, den, k - 1 - m) }

  lemma LastBit(n: nat, den: nat, base: nat, s: Div, s': Div, m: nat)
    requires den > 0 && Mid(n, den, base, s, m, m)
    requires s'.r0 == if s.r0 >= den then s.r0 - den else s.r0
    ensures s'.r0 == n % den
  {
    assert Pow2(m - m) == 1;
    if s.r0 >= den { ModUnique(n, den, s.r2 - base + 1, s'.r0); } else { ModUnique(n, den, s.r2 - base, s'.r0); }
  }
  lemma LowerShift(den: nat, r1: Word, m: nat, k: nat)
    requires r1 == den * Pow2(m) && m <= k
    ensures Lsr(r1, k) == Quotient2(den, k - m)
  {
    hide Pow2;
    Exact(r1, Pow2(m), den);
    Pow2Sum(m, k - m);
    DivDiv(r1, Pow2(m), Pow2(k - m));
  }
  lemma PastStep(n: nat, den: nat, base: nat, s: Div, k: nat, m: nat)
    requires den > 0 && s.r3 == Pow2(m) && s.r1 == den * s.r3 && k > 0
    requires (k <= m ==> Mid(n, den, base, s, k, m)) && Past(n, den, s, k, m)
    ensures Past(n, den, NextBit(s, k), k + 1, m)
  {
    hide Pow2, Mid, OrW;
    if k == m { LowerShift(den, s.r1, m, k); WholeDivisor(den); LastBit(n, den, base, s, NextBit(s, k), m); }
    else if k > m { LowerShift(den, s.r1, m, k); }
    hide Lsr, Quotient2;
  }
  lemma WholeDivisor(den: nat) ensures Quotient2(den, 0) == den {}
  lemma PastFirst(n: nat, den: nat, base: nat, s: Div, m: nat)
    requires den > 0 && s.r3 == Pow2(m) && s.r1 == den * s.r3 && Mid(n, den, base, s, 0, m)
    ensures Past(n, den, FirstBit(s), 1, m)
  {
    if m == 0 { LastBit(n, den, base, s, FirstBit(s), 0); }
    hide OrW, Mid;
  }
  lemma RoundPast(n: nat, den: nat, base: nat, s: Div, m: nat)
    requires den > 0 && s.r3 == Pow2(m) && s.r1 == den * s.r3 && Mid(n, den, base, s, 0, m)
    ensures Past(n, den, Round(s), 4, m)
  {
    StepMid(n, den, base, s, FirstBit(s), 0, m) by { hide OrW; }
    Keeps(s);
    PastFirst(n, den, base, s, m);
    hide OrW, Lsr, Mid, NextBit, FirstBit, Past;
    var a := FirstBit(s);
    NextMid(n, den, base, a, 1, m); PastStep(n, den, base, a, 1, m);
    var b := NextBit(a, 1);
    NextMid(n, den, base, b, 2, m); PastStep(n, den, base, b, 2, m);
    var c := NextBit(b, 2);
    NextMid(n, den, base, c, 3, m); PastStep(n, den, base, c, 3, m);
  }
  lemma {:induction false} ShavedZero(den: nat, j: nat)
    ensures Shaved(0, den, j) == 0
  { if j > 0 { ShavedZero(den, j - 1); } hide Quotient2; }
  lemma {:induction false} LeftFrom(n: nat, den: nat, base: nat, s: Div, m: nat)
    requires den > 0 && s.r3 == Pow2(m) && s.r1 == den * s.r3 && Mid(n, den, base, s, 0, m)
    ensures Summary(s).d.r0 == Shaved(n % den, den, 3 - m % 4)
    decreases m
  {
    hide OrW, Lsr, Round, RoundSeq, Shaved;
    RoundMid(n, den, base, s, m); RoundPast(n, den, base, s, m); R3Down(s); Down16(den, s.r1, s.r3, m);
    var d1 := Round(s);
    if d1.r0 == 0 {
      if m >= 4 { ModUnique(n, den, d1.r2 - base, 0); ShavedZero(den, 3 - m % 4); }
    } else if m >= 4 {
      NextWeights(n, den, base, d1, d1.(r3 := d1.r3 / 16, r1 := d1.r1 / 16), m);
      LeftFrom(n, den, base, d1.(r3 := d1.r3 / 16, r1 := d1.r1 / 16), m - 4);
    }
  }
  lemma {:induction false} ShavedSame(r: nat, den: nat, j: nat)
    ensures Shaved(r, den, j) == r <==> forall i :: 1 <= i <= j ==> Quotient2(den, i) == 0 || r < Quotient2(den, i)
  {
    hide Quotient2;
    if j > 0 {
      ShavedSame(r, den, j - 1);
      if Shaved(r, den, j - 1) == r {
        var t := Quotient2(den, j);
        if t == 0 || r < t {
          forall i | 1 <= i <= j ensures Quotient2(den, i) == 0 || r < Quotient2(den, i) {}
        }
      }
    }
  }

  /** From an aligned entry r0 ends as the remainder less what the last turn takes off it below
      the divisor; it is the remainder itself exactly when nothing there fits. */
  lemma Leftover(d: Div, den: nat, m: nat)
    requires den > 0 && d.r3 == Pow2(m) && d.r1 == den * d.r3 && d.r0 < 2 * d.r1 && d.r2 % (2 * d.r3) == 0
    ensures Summary(d).d.r0 == Shaved(d.r0 % den, den, 3 - m % 4)
    ensures Summary(d).d.r0 == d.r0 % den
      <==> forall i :: 1 <= i <= 3 - m % 4 ==> Quotient2(den, i) == 0 || d.r0 % den < Quotient2(den, i)
  {
    assert Mid(d.r0, den, d.r2, d, 0, m);
    LeftFrom(d.r0, den, d.r2, d, m);
    ShavedSame(d.r0 % den, den, 3 - m % 4);
    hide Shaved;
  }
  /** So 1 / 3 leaves 0. */
  lemma NotTheRemainder(d: Div)
    requires d.r0 == 1 && d.r1 == 3 && d.r2 == 0 && d.r3 == 1
    ensures Summary(d).d.r2 == d.r0 / d.r1 && Summary(d).d.r0 == 0 && d.r0 % d.r1 == 1
  {
    assert Pow2(0) == 1 && Pow2(1) == 2 && Pow2(2) == 4 && Pow2(3) == 8;
    Divides(d, 3, 0); Leftover(d, 3, 0);
    assert Shaved(1, 3, 1) == 0;
    hide Summary;
  }
}
