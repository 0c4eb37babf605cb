/** 32-bit words as integers, with C's wrap-around, shifts and bitwise operators. */
module Words {
  type Word = x: int | 0 <= x < 0x1_0000_0000

  function Bit(b: bool): Word { if b then 1 else 0 }
  predicate Neg31(x: Word) { x >= 0x8000_0000 }

  function AddW(a: Word, b: Word): (r: Word)
    ensures r == a + b || r == a + b - 0x1_0000_0000
  { if a + b < 0x1_0000_0000 then a + b else a + b - 0x1_0000_0000 }

  function SubW(a: Word, b: Word): (r: Word)
    ensures r == a - b || r == a - b + 0x1_0000_0000
  { if a >= b then a - b else a - b + 0x1_0000_0000 }

  function NotW(a: Word): Word { 0xFFFF_FFFF - a }

  function MulW(a: Word, b: Word): Word { (a * b) % 0x1_0000_0000 }

  function Pow2(k: nat): (p: nat)
    ensures p >= 1
  { if k == 0 then 1 else 2 * Pow2(k - 1) }

  lemma {:induction false} Pow2Sum(a: nat, b: nat)
    ensures Pow2(a + b) == Pow2(a) * Pow2(b)
  {
    if a > 0 { Pow2Sum(a - 1, b); assert Pow2(a + b) == 2 * Pow2(a - 1 + b); }
  }
  lemma Pow2Is32()
    ensures Pow2(31) == 0x8000_0000 && Pow2(32) == 0x1_0000_0000
  {
    assert Pow2(4) == 16;
    Pow2Sum(4, 4); Pow2Sum(8, 8); Pow2Sum(16, 16);
    assert Pow2(32) == 2 * Pow2(31);
  }

  datatype BitOp = BAnd | BOr | BXor

  function Truth(op: BitOp, a: nat, b: nat): nat {
    match op
    case BAnd => if a % 2 == 1 && b % 2 == 1 then 1 else 0
    case BOr => if a % 2 == 1 || b % 2 == 1 then 1 else 0
    case BXor => if a % 2 != b % 2 then 1 else 0
  }

  /** Bit-by-bit combination of two naturals. */
  function Bitwise(op: BitOp, a: nat, b: nat): nat
    decreases a + b
  {
    if a == 0 && b == 0 then 0 else Truth(op, a, b) + 2 * Bitwise(op, a / 2, b / 2)
  }

  lemma {:induction false} BitwiseBound(op: BitOp, a: nat, b: nat, n: nat)
    requires a < Pow2(n) && b < Pow2(n)
    ensures Bitwise(op, a, b) < Pow2(n)
  {
    if n > 0 { BitwiseBound(op, a / 2, b / 2, n - 1); }
  }

  function BitwiseW(op: BitOp, a: Word, b: Word): Word {
    Pow2Is32(); BitwiseBound(op, a, b, 32); Bitwise(op, a, b)
  }
  function AndW(a: Word, b: Word): Word { BitwiseW(BAnd, a, b) }
  function OrW(a: Word, b: Word): Word { BitwiseW(BOr, a, b) }
  function XorW(a: Word, b: Word): Word { BitwiseW(BXor, a, b) }

  lemma {:induction false} BitwiseTop(op: BitOp, a: nat, b: nat, n: nat)
    requires a < Pow2(n + 1) && b < Pow2(n + 1)
    ensures Bitwise(op, a, b) >= Pow2(n) <==>
            Truth(op, if a >= Pow2(n) then 1 else 0, if b >= Pow2(n) then 1 else 0) == 1
  {
    if n > 0 {
      BitwiseTop(op, a / 2, b / 2, n - 1);
      assert a / 2 >= Pow2(n - 1) <==> a >= Pow2(n);
      assert b / 2 >= Pow2(n - 1) <==> b >= Pow2(n);
    } else if a + b > 0 { assert Bitwise(op, a / 2, b / 2) == 0; }
  }

  lemma SignOf(op: BitOp, a: Word, b: Word)
    ensures Neg31(BitwiseW(op, a, b)) <==>
            Truth(op, Bit(Neg31(a)), Bit(Neg31(b))) == 1
  { Pow2Is32(); BitwiseTop(op, a, b, 31); }

  lemma {:induction false} AndMask(a: nat, n: nat)
    ensures Bitwise(BAnd, a, Pow2(n) - 1) == a % Pow2(n)
  {
    if n == 0 { AndZero(a); }
    else {
      AndMask(a / 2, n - 1);
      AndStep(a, Pow2(n - 1));
    }
  }
  lemma AndStep(a: nat, p: nat)
    requires p > 0 && Bitwise(BAnd, a / 2, p - 1) == (a / 2) % p
    ensures Bitwise(BAnd, a, 2 * p - 1) == a % (2 * p)
  {
    AndOdd(a, p - 1); ModSplit(a, p);
    hide Bitwise;
  }
  lemma AndOdd(a: nat, m: nat)
    ensures Bitwise(BAnd, a, 2 * m + 1) == a % 2 + 2 * Bitwise(BAnd, a / 2, m)
  {}
  lemma {:induction false} AndZero(a: nat)
    ensures Bitwise(BAnd, a, 0) == 0
  { if a > 0 { AndZero(a / 2); } }
  lemma ModSplit(a: nat, p: nat)
    requires p > 0
    ensures a % (2 * p) == a % 2 + 2 * ((a / 2) % p)
  {
    var q, r := (a / 2) / p, (a / 2) % p;
    assert a / 2 == q * p + r;
    assert a == a % 2 + 2 * (a / 2);
    assert a == q * (2 * p) + (a % 2 + 2 * r) by {
      assert 2 * (q * p + r) == q * (2 * p) + 2 * r;
    }
    ModUnique(a, 2 * p, q, a % 2 + 2 * r);
  }
  lemma ModUnique(a: int, m: int, q: int, r: int)
    requires m > 0 && 0 <= r < m && a == q * m + r
    ensures a % m == r && a / m == q
  {
    MulPos(q - a / m, m);
    MulPos(a / m - q, m);
  }
  lemma MulPos(k: int, m: int)
    requires m > 0
    ensures k >= 1 ==> k * m >= m
  {}

  function Lsl(x: Word, k: nat): Word { (x * Pow2(k)) % 0x1_0000_0000 }
  function Quot(x: Word, p: nat): (r: Word)
    requires p >= 1
    ensures r <= x
  { DivLe(x, p); x / p }
  function Lsr(x: Word, k: nat): (r: Word) ensures r <= x { Quot(x, Pow2(k)) }
  function Asr(x: Word, k: nat): Word {
    if Neg31(x) then NotW(Lsr(NotW(x), k)) else Lsr(x, k)
  }
  lemma DivLe(x: nat, p: nat) requires p >= 1 ensures x / p <= x { }

  lemma {:induction false} BitwiseSelf(a: nat)
    ensures Bitwise(BAnd, a, a) == a
  { if a > 0 { BitwiseSelf(a / 2); } }
  lemma AndSelf(a: Word)
    ensures AndW(a, a) == a
  { BitwiseSelf(a); }

  lemma AndOne(a: Word)
    ensures AndW(a, 1) == a % 2
  { AndMask(a, 1); assert Pow2(1) == 2; }
  lemma AndByte(a: Word)
    ensures AndW(a, 0xFF) == a % 256 && AndW(a, 0x1F) == a % 32
  {
    AndMask(a, 8); AndMask(a, 5);
    assert Pow2(4) == 16 && Pow2(5) == 32; Pow2Sum(4, 4);
  }

  /** Testing one bit with a mask. */
  lemma {:induction false} BitTest(a: nat, n: nat)
    ensures Bitwise(BAnd, a, Pow2(n)) == 0 <==> (a / Pow2(n)) % 2 == 0
  {
    if n > 0 {
      BitTest(a / 2, n - 1);
      assert Pow2(n) / 2 == Pow2(n - 1);
      DivDiv(a, 2, Pow2(n - 1));
    } else { AndZero(a / 2); }
  }
  lemma DivDiv(a: nat, p: nat, q: nat)
    requires p > 0 && q > 0
    ensures p * q > 0 && a / p / q == a / (p * q)
  {
    var x, y := a / p, a % p;
    var u, v := x / q, x % q;
    DivModOf(a, p); DivModOf(x, q);
    Regroup(p, q, u, v, y);
    Nested(a, p, q, x, y, u, v);
    ModUnique(a, p * q, u, p * v + y);
  }
  lemma Nested(a: nat, p: nat, q: nat, x: nat, y: nat, u: nat, v: nat)
    requires a == x * p + y && x == u * q + v
    ensures a == p * (q * u + v) + y
  {}
  lemma Regroup(p: nat, q: nat, u: nat, v: nat, y: nat)
    requires v < q && y < p
    ensures p * q > 0 && p * (q * u + v) + y == u * (p * q) + (p * v + y) && p * v + y < p * q
  {
    assert p * (q * u) == u * (p * q);
    assert p * (v + 1) <= p * q;
  }

  lemma {:induction false} BitwiseComm(op: BitOp, a: nat, b: nat)
    ensures Bitwise(op, a, b) == Bitwise(op, b, a)
    decreases a + b
  { if a + b > 0 { BitwiseComm(op, a / 2, b / 2); } }
  lemma OrComm(a: Word, b: Word)
    ensures OrW(a, b) == OrW(b, a)
  { BitwiseComm(BOr, a, b); }

  function BitOf(x: Word, k: nat): bool { Lsr(x, k) % 2 == 1 }

  lemma AndBits(p: bool, q: bool)
    ensures AndW(Bit(p), Bit(q)) == Bit(p && q)
  { AndOne(Bit(p)); AndZero(Bit(p)); }

  /** A rotation right by k leaves the last bit shifted out on top. */
  lemma RorTop(x: Word, k: nat)
    requires 1 <= k < 32
    ensures Neg31(OrW(Lsr(x, k), Lsl(x, 32 - k))) == BitOf(x, k - 1)
  {
    SignOf(BOr, Lsr(x, k), Lsl(x, 32 - k));
    RorHigh(x, k);
    RorLow(x, k);
    hide Lsr, Lsl, OrW, BitOf;
  }
  lemma RorHigh(x: Word, k: nat)
    requires 1 <= k < 32
    ensures !Neg31(Lsr(x, k))
  {
    assert Pow2(k) == 2 * Pow2(k - 1);
    DivDiv(x, 2, Pow2(k - 1));
    DivLe(x / 2, Pow2(k - 1));
  }
  lemma RorLow(x: Word, k: nat)
    requires 1 <= k < 32
    ensures Neg31(Lsl(x, 32 - k)) == BitOf(x, k - 1)
  {
    Pow2Is32(); Pow2Sum(k - 1, 32 - k);
    LowProductOf(x, Pow2(k - 1), Pow2(32 - k));
    hide Pow2;
  }
  lemma LowProductOf(x: Word, p: nat, m: nat)
    requires p > 0 && m > 0 && p * m == 0x8000_0000
    ensures (x * m) % 0x1_0000_0000 >= 0x8000_0000 <==> (x / p) % 2 == 1
  { DivModOf(x, p); LowProduct(x, p, m, x / p, x % p); }
  lemma DivModOf(x: nat, p: nat)
    requires p > 0
    ensures x == (x / p) * p + x % p && 0 <= x % p < p
  {}
  lemma LowProduct(x: Word, p: nat, m: nat, q: nat, s: nat)
    requires p > 0 && m > 0 && p * m == 0x8000_0000 && x == q * p + s && s < p
    ensures (x * m) % 0x1_0000_0000 >= 0x8000_0000 <==> q % 2 == 1
  {
    var u, b := q / 2, q % 2;
    assert x * m == q * (p * m) + s * m by { assert (q * p + s) * m == q * (p * m) + s * m; }
    assert s * m <= (p - 1) * m;
    assert (p - 1) * m == p * m - m;
    ModUnique(x * m, 0x1_0000_0000, u, b * 0x8000_0000 + s * m);
  }

  function Signed(x: Word): int { if Neg31(x) then x - 0x1_0000_0000 else x }

  /** OR of words with no common bit is their sum. */
  lemma {:induction false} OrAdd(a: nat, b: nat)
    requires Bitwise(BAnd, a, b) == 0
    ensures Bitwise(BOr, a, b) == a + b
    decreases a + b
  { if a + b > 0 { OrAdd(a / 2, b / 2); } }

  lemma {:induction false} OrZero(a: nat, b: nat)
    ensures Bitwise(BOr, a, b) == 0 <==> a == 0 && b == 0
    decreases a + b
  { if a + b > 0 { OrZero(a / 2, b / 2); } }
}
