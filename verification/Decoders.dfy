/** The LZ77 and run-length SWI decoders: bytewise (WRAM) and halfword-buffered (VRAM). */
module Decoders {
  import opened Words
  import opened Sh4
  import opened GuestBus

  /** One output byte: from the stream, or the byte `dist` before the one being written. */
  datatype Emit = Lit(b: Byte) | Back(dist: nat)

  function ByteAt(s: seq<Byte>, i: nat): Byte { if i < |s| then s[i] else 0 }
  function Read(m: seq<Byte>, a: int): Byte { if 0 <= a < |m| then m[a] else 0 }
  function ValueAt(m: seq<Byte>, at: int, e: Emit): Byte {
    match e case Lit(b) => b case Back(d) => Read(m, at - d)
  }

  // ---- the streams -----------------------------------------------------------

  function RefLength(hi: Byte): nat { hi / 16 + 3 }
  function RefDist(hi: Byte, lo: Byte): nat {
    var h: int := hi;
    (h % 16) * 256 + lo + 1
  }
  function Min(a: nat, b: nat): nat { if a < b then a else b }
  function Refs(dist: nat, n: nat): (r: seq<Emit>)
    ensures |r| == n
  { seq(n, _ => Back(dist)) }

  /** Output bytes of an LZ77 stream from byte `pos`, `len` still wanted. */
  function LzOps(s: seq<Byte>, pos: nat, len: nat): (r: seq<Emit>)
    ensures |r| == len
    decreases 2 * len + 7
  { if len == 0 then [] else LzBits(s, pos + 1, ByteAt(s, pos), 8, len) }

  /** The same within a block: flag bits `d`, `left` of them unused. */
  function LzBits(s: seq<Byte>, pos: nat, d: Byte, left: nat, len: nat): (r: seq<Emit>)
    requires left <= 8
    ensures |r| == len
    decreases 2 * len + 8 - left
  {
    if len == 0 then []
    else if left == 0 then LzOps(s, pos, len)
    else if d >= 128 then
      var n := Min(RefLength(ByteAt(s, pos)), len);
      Refs(RefDist(ByteAt(s, pos), ByteAt(s, pos + 1)), n) + LzBits(s, pos + 2, Twice(d), left - 1, len - n)
    else [Lit(ByteAt(s, pos))] + LzBits(s, pos + 1, Twice(d), left - 1, len - 1)
  }
  function Twice(d: Byte): Byte { var x: int := d; (2 * x) % 256 }

  function Lits(s: seq<Byte>, pos: nat, n: nat): (r: seq<Emit>)
    ensures |r| == n
  { seq(n, i requires 0 <= i < n => Lit(ByteAt(s, pos + i))) }
  function Same(b: Byte, n: nat): (r: seq<Emit>)
    ensures |r| == n
  { seq(n, _ => Lit(b)) }

  /** Output bytes of a run-length stream. */
  function RlOps(s: seq<Byte>, pos: nat, len: nat): (r: seq<Emit>)
    ensures |r| == len
    decreases len
  {
    if len == 0 then []
    else
      var d := ByteAt(s, pos);
      if d >= 128 then
        var n := Min(d - 128 + 3, len);
        Same(ByteAt(s, pos + 1), n) + RlOps(s, pos + 2, len - n)
      else
        var n := Min(d + 1, len);
        Lits(s, pos + 1, n) + RlOps(s, pos + 1 + n, len - n)
  }

  // ---- the two ways of storing --------------------------------------------------

  /** Bytewise: every byte is stored before the next is formed. */
  function Bytewise(m: seq<Byte>, at: nat, ops: seq<Emit>): (r: seq<Byte>)
    requires at + |ops| <= |m|
    ensures |r| == |m|
    decreases |ops|
  { if ops == [] then m else Bytewise(m[at := ValueAt(m, at, ops[0])], at + 1, ops[1..]) }

  /** execute_store_u16: the address is rounded down to a halfword. */
  function Store16(m: seq<Byte>, at: nat, lo: Byte, hi: Byte): (r: seq<Byte>)
    requires at + 2 <= |m|
    ensures |r| == |m|
  { m[at - at % 2 := lo][at - at % 2 + 1 := hi] }

  /** Buffered: every second byte waits for its neighbour and both are stored together; one still
      waiting at the end is lost. */
  function Buffered(m: seq<Byte>, at: nat, wait: Option<Byte>, ops: seq<Emit>): (r: seq<Byte>)
    requires at + |ops| + (if wait.Some? then 1 else 0) <= |m|
    ensures |r| == |m|
    decreases |ops|
  {
    if ops == [] then m
    else
      match wait
      case None => Buffered(m, at, Some(ValueAt(m, at, ops[0])), ops[1..])
      case Some(lo) => Buffered(Store16(m, at, lo, ValueAt(m, at + 1, ops[0])), at + 2, None, ops[1..])
  }

  lemma {:induction false} BytewiseSplit(m: seq<Byte>, at: nat, x: seq<Emit>, y: seq<Emit>)
    requires at + |x| + |y| <= |m|
    ensures Bytewise(m, at, x + y) == Bytewise(Bytewise(m, at, x), at + |x|, y)
    decreases |x|
  {
    if x == [] { assert x + y == y; }
    else { assert (x + y)[1..] == x[1..] + y; BytewiseSplit(m[at := ValueAt(m, at, x[0])], at + 1, x[1..], y); }
  }

  // ---- when they agree ------------------------------------------------------------

  /** Memory after two bytes stored one by one. */
  function Pair(m: seq<Byte>, at: nat, a: Emit, b: Emit): (r: seq<Byte>)
    requires at + 2 <= |m|
    ensures |r| == |m|
  { var m1 := m[at := ValueAt(m, at, a)]; m1[at + 1 := ValueAt(m1, at + 1, b)] }

  /** Each distance-1 reference at an odd offset, which reads the byte still waiting, happens to
      find that byte's value in memory already. */
  predicate Echoed(m: seq<Byte>, at: nat, ops: seq<Emit>)
    requires at + |ops| <= |m|
    decreases |ops|
  {
    |ops| < 2
    || ((ops[1] == Back(1) ==> m[at] == ValueAt(m, at, ops[0])) && Echoed(Pair(m, at, ops[0], ops[1]), at + 2,
        ops[2..]))
  }
  predicate Sound(ops: seq<Emit>) { forall i :: 0 <= i < |ops| ==> ops[i] != Back(0) }

  lemma TwoSteps(m: seq<Byte>, at: nat, ops: seq<Emit>)
    requires |ops| >= 2 && at + |ops| <= |m|
    ensures Bytewise(m, at, ops) == Bytewise(Pair(m, at, ops[0], ops[1]), at + 2, ops[2..])
    ensures Buffered(m, at, None, ops)
      == Buffered(Store16(m, at, ValueAt(m, at, ops[0]), ValueAt(m, at + 1, ops[1])), at + 2, None, ops[2..])
  {
    hide ValueAt, Store16;
    assert ops[1..][1..] == ops[2..] && ops[1..][0] == ops[1];
  }
  lemma SecondByte(m: seq<Byte>, at: nat, a: Emit, b: Emit)
    requires at + 2 <= |m| && b != Back(0)
    ensures b != Back(1) ==> m[at := ValueAt(m, at, a)][at + 1 := ValueAt(m, at + 1, b)] == Pair(m, at, a, b)
    ensures b == Back(1) ==>
      Pair(m, at, a, b)[at + 1] == ValueAt(m, at, a)
      && m[at := ValueAt(m, at, a)][at + 1 := ValueAt(m, at + 1, b)][at + 1] == m[at]
    ensures b == Back(1) && m[at] == ValueAt(m, at, a) ==>
      m[at := ValueAt(m, at, a)][at + 1 := ValueAt(m, at + 1, b)] == Pair(m, at, a, b)
  {}
  /** Neither form ever rewrites a byte behind it. */
  lemma {:induction false} Behind(m: seq<Byte>, at: nat, ops: seq<Emit>, k: nat)
    requires at + |ops| <= |m| && k < at
    ensures Bytewise(m, at, ops)[k] == m[k]
    decreases |ops|
  { if ops != [] { Behind(m[at := ValueAt(m, at, ops[0])], at + 1, ops[1..], k); } }
  lemma {:induction false} BehindBuffered(m: seq<Byte>, at: nat, wait: Option<Byte>, ops: seq<Emit>, k: nat)
    requires at + |ops| + (if wait.Some? then 1 else 0) <= |m| && k < at - at % 2
    ensures Buffered(m, at, wait, ops)[k] == m[k]
    decreases |ops|
  {
    if ops != [] {
      match wait
      case None => BehindBuffered(m, at, Some(ValueAt(m, at, ops[0])), ops[1..], k);
      case Some(lo) => BehindBuffered(Store16(m, at, lo, ValueAt(m, at + 1, ops[0])), at + 2, None, ops[1..], k);
    }
  }

  /** At an even destination and for an even number of bytes the two decoders agree exactly when
      every odd distance-1 reference is echoed. */
  lemma {:induction false} AgreeIff(m: seq<Byte>, at: nat, ops: seq<Emit>)
    requires at + |ops| <= |m| && |ops| % 2 == 0 && at % 2 == 0 && Sound(ops)
    ensures Buffered(m, at, None, ops) == Bytewise(m, at, ops) <==> Echoed(m, at, ops)
    decreases |ops|
  {
    if ops != [] {
      var a, b, rest := ops[0], ops[1], ops[2..];
      var m1, m2 := m[at := ValueAt(m, at, a)][at + 1 := ValueAt(m, at + 1, b)], Pair(m, at, a, b);
      TwoSteps(m, at, ops);
      SecondByte(m, at, a, b);
      AgreeIff(m2, at + 2, rest);
      Behind(m2, at + 2, rest, at + 1);
      BehindBuffered(m1, at + 2, None, rest, at + 1);
      hide Bytewise, Buffered, Pair, ValueAt;
    }
  }

  /** At an odd destination halfwords land one byte low: the buffered decoder stores nothing but
      v, and the last byte of the destination, which it never reaches, is v already. */
  predicate Still(m: seq<Byte>, at: nat, v: Byte, ops: seq<Emit>)
    requires at % 2 == 1 && at + |ops| <= |m| && |ops| % 2 == 0
    decreases |ops|
  {
    if ops == [] then m[at - 1] == v
    else ValueAt(m, at, ops[0]) == v && ValueAt(m, at + 1, ops[1]) == v && Still(m[at - 1 := v][at := v], at + 2, v,
        ops[2..])
  }
  /** At an odd destination they agree exactly when the stream only spreads the byte below it. */
  lemma {:induction false} OddAgreeIff(m: seq<Byte>, at: nat, v: Byte, ops: seq<Emit>)
    requires at % 2 == 1 && at + |ops| <= |m| && |ops| % 2 == 0 && Sound(ops)
    ensures Buffered(m, at, None, ops) == Bytewise(m[at - 1 := v], at, ops) <==> Still(m, at, v, ops)
    decreases |ops|
  {
    var m0 := m[at - 1 := v];
    if ops != [] {
      var a, b, rest := ops[0], ops[1], ops[2..];
      var lo, hi := ValueAt(m, at, a), ValueAt(m, at + 1, b);
      var m1, m2 := Store16(m, at, lo, hi), Pair(m0, at, a, b);
      TwoSteps(m, at, ops); TwoSteps(m0, at, ops);
      BehindBuffered(m1, at + 2, None, rest, at - 1); BehindBuffered(m1, at + 2, None, rest, at);
      Behind(m2, at + 2, rest, at - 1); Behind(m2, at + 2, rest, at);
      if lo == v {
        SpreadFirst(m, at, v, a, b);
        if hi == v {
          SpreadSecond(m, at, v, a, b);
          OddAgreeIff(m1, at + 2, v, rest);
        }
      } else { assert m1[at - 1] == lo && m2[at - 1] == v; }
      hide Bytewise, Buffered, Pair, ValueAt, Store16;
    } else { assert m0[at - 1] == v; }
  }
  lemma SpreadFirst(m: seq<Byte>, at: nat, v: Byte, a: Emit, b: Emit)
    requires at % 2 == 1 && at + 2 <= |m| && a != Back(0) && ValueAt(m, at, a) == v
    ensures ValueAt(m[at - 1 := v], at, a) == v && Pair(m[at - 1 := v], at, a, b)[at] == v
    ensures Store16(m, at, v, ValueAt(m, at + 1, b))[at] == ValueAt(m, at + 1, b)
  {}
  lemma SpreadSecond(m: seq<Byte>, at: nat, v: Byte, a: Emit, b: Emit)
    requires at % 2 == 1 && at + 2 <= |m| && a != Back(0) && b != Back(0) && ValueAt(m, at, a) == v
    requires ValueAt(m, at + 1, b) == v
    ensures Store16(m, at, v, v) == m[at - 1 := v][at := v]
    ensures Pair(m[at - 1 := v], at, a, b) == m[at - 1 := v][at := v][at + 1 := v]
  { SpreadFirst(m, at, v, a, b); }
  lemma {:induction false} StillLast(m: seq<Byte>, at: nat, v: Byte, ops: seq<Emit>)
    requires at % 2 == 1 && at + |ops| <= |m| && |ops| % 2 == 0 && Still(m, at, v, ops)
    ensures m[at + |ops| - 1] == v
    decreases |ops|
  { if ops != [] { StillLast(m[at - 1 := v][at := v], at + 2, v, ops[2..]); } }
  lemma {:induction false} StillLits(m: seq<Byte>, at: nat, v: Byte, ops: seq<Emit>)
    requires at % 2 == 1 && at + |ops| <= |m| && |ops| % 2 == 0 && forall i :: 0 <= i < |ops| ==> ops[i].Lit?
    ensures Still(m, at, v, ops) <==> m[at + |ops| - 1] == v && forall i :: 0 <= i < |ops| ==> ops[i] == Lit(v)
    decreases |ops|
  {
    if ops != [] {
      var rest := ops[2..];
      StillLits(m[at - 1 := v][at := v], at + 2, v, rest);
      if forall i :: 0 <= i < |rest| ==> rest[i] == Lit(v) {
        if ops[0] == Lit(v) && ops[1] == Lit(v) {
          forall i | 0 <= i < |ops| ensures ops[i] == Lit(v) { if i >= 2 { assert ops[i] == rest[i - 2]; } }
        }
      } else {
        var i :| 0 <= i < |rest| && rest[i] != Lit(v);
        assert ops[i + 2] != Lit(v);
      }
    }
  }

  predicate NoOddRepeat(ops: seq<Emit>) { forall i :: 0 <= i < |ops| && i % 2 == 1 ==> ops[i] != Back(1) }

  lemma {:induction false} NoRepeatEchoes(m: seq<Byte>, at: nat, ops: seq<Emit>)
    requires at + |ops| <= |m| && NoOddRepeat(ops)
    ensures Echoed(m, at, ops)
    decreases |ops|
  {
    if |ops| >= 2 {
      var rest := ops[2..];
      forall i | 0 <= i < |rest| && i % 2 == 1 ensures rest[i] != Back(1) { assert rest[i] == ops[i + 2]; }
      NoRepeatEchoes(Pair(m, at, ops[0], ops[1]), at + 2, rest);
    }
  }
  /** Changing memory ahead of the first two bytes changes neither of them. */
  lemma AheadUnread(m: seq<Byte>, m': seq<Byte>, at: nat, a: Emit, b: Emit)
    requires at + 2 <= |m| == |m'| && a != Back(0) && b != Back(0) && m'[..at] == m[..at]
    ensures ValueAt(m', at, a) == ValueAt(m, at, a)
    ensures Pair(m', at, a, b)[..at + 2] == Pair(m, at, a, b)[..at + 2]
    ensures Pair(m', at, a, b)[at + 2..] == m'[at + 2..]
  {
    forall k | 0 <= k < at ensures m'[k] == m[k] { assert m'[..at][k] == m[..at][k]; }
  }
  /** An odd distance-1 reference does tell them apart, for some old contents of the destination. */
  lemma {:induction false} RepeatDiffers(m: seq<Byte>, at: nat, ops: seq<Emit>) returns (m': seq<Byte>)
    requires at + |ops| <= |m| && |ops| % 2 == 0 && Sound(ops) && !NoOddRepeat(ops)
    ensures |m'| == |m| && m'[..at] == m[..at] && m'[at + |ops|..] == m[at + |ops|..]
    ensures !Echoed(m', at, ops)
    decreases |ops|
  {
    var a, b, rest := ops[0], ops[1], ops[2..];
    if b == Back(1) {
      var v := ValueAt(m, at, a);
      m' := m[at := if v == 0 then 1 else 0];
      AheadUnread(m, m', at, a, b);
    } else {
      var i :| 0 <= i < |ops| && i % 2 == 1 && ops[i] == Back(1);
      assert rest[i - 2] == Back(1);
      var m2 := Pair(m, at, a, b);
      var m2' := RepeatDiffers(m2, at + 2, rest);
      m' := m[..at + 2] + m2'[at + 2..];
      Spliced(m, m2, m2', at, a, b, |rest|);
    }
  }
  lemma Spliced(m: seq<Byte>, m2: seq<Byte>, m2': seq<Byte>, at: nat, a: Emit, b: Emit, n: nat)
    requires at + 2 + n <= |m| == |m2'| && a != Back(0) && b != Back(0) && m2 == Pair(m, at, a, b)
    requires m2'[..at + 2] == m2[..at + 2] && m2'[at + 2 + n..] == m2[at + 2 + n..]
    ensures var m' := m[..at + 2] + m2'[at + 2..];
      |m'| == |m| && m'[..at] == m[..at] && m'[at + 2 + n..] == m[at + 2 + n..] && Pair(m', at, a, b) == m2'
  {
    var m' := m[..at + 2] + m2'[at + 2..];
    assert m'[..at] == m[..at];
    AheadUnread(m, m', at, a, b);
    var p := Pair(m', at, a, b);
    assert p == p[..at + 2] + p[at + 2..];
    assert m2' == m2'[..at + 2] + m2'[at + 2..];
    assert m'[at + 2..] == m2'[at + 2..];
    assert m2[at + 2 + n..] == m[at + 2 + n..];
    assert m'[at + 2 + n..] == m2'[at + 2 + n..];
    hide Pair, ValueAt;
  }

  // ---- the decoder loops ------------------------------------------------------------

  /** Source or end address in a refused region: nothing is decoded. */
  predicate Barred(source: Word, header: Word) {
    (Lo(source + 4) / 0x200_0000) % 8 == 0 || (Lo(source + 4 + (header / 256) % 0x20_0000) / 0x200_0000) % 8 == 0
  }

  lemma BytewiseStep(m: seq<Byte>, at: nat, e: Emit, rest: seq<Emit>)
    requires at + 1 + |rest| <= |m|
    ensures Bytewise(m, at, [e] + rest) == Bytewise(m[at := ValueAt(m, at, e)], at + 1, rest)
  { assert ([e] + rest)[1..] == rest; }
  lemma RefsStep(dist: nat, n: nat)
    requires n > 0
    ensures Refs(dist, n) == [Back(dist)] + Refs(dist, n - 1)
  {}

  /** Where a decoder stands: next stream byte, next output byte, bytes still wanted. */
  datatype Cursor = Cursor(pos: nat, at: nat, len: nat)

  class Wram {
    var m: array<Byte>
    constructor (m: array<Byte>) ensures this.m == m { this.m := m; }

    method Put(at: nat, e: Emit)
      requires at < m.Length
      modifies m
      ensures m[..] == old(m[..])[at := ValueAt(old(m[..]), at, e)]
    {
      match e
      case Lit(b) => m[at] := b;
      case Back(d) => m[at] := if 0 <= at - d < m.Length then m[at - d] else 0;
    }

    method References(c: Cursor, dist: nat, length: nat, ghost rest: seq<Emit>) returns (c': Cursor)
      requires c.at + c.len <= m.Length && |rest| == c.len - Min(length, c.len)
      modifies m
      ensures c' == Cursor(c.pos, c.at + Min(length, c.len), c.len - Min(length, c.len))
      ensures Bytewise(m[..], c'.at, rest) == Bytewise(old(m[..]), c.at, Refs(dist, Min(length, c.len)) + rest)
    {
      hide Bytewise, ValueAt;
      ghost var n := Min(length, c.len);
      c' := c;
      var i := 0;
      assert Refs(dist, 0) + rest == rest;
      while i < length && c'.len > 0
        invariant i <= n && c' == Cursor(c.pos, c.at + i, c.len - i)
        invariant Bytewise(m[..], c'.at, Refs(dist, n - i) + rest) == Bytewise(old(m[..]), c.at, Refs(dist, n) + rest)
      {
        RefsStep(dist, n - i);
        assert Refs(dist, n - i) + rest == [Back(dist)] + (Refs(dist, n - i - 1) + rest);
        BytewiseStep(m[..], c'.at, Back(dist), Refs(dist, n - i - 1) + rest);
        Put(c'.at, Back(dist));
        c' := c'.(at := c'.at + 1, len := c'.len - 1);
        i := i + 1;
      }
    }

    /** One flag byte and its eight tokens. */
    method Block(s: seq<Byte>, c: Cursor) returns (c': Cursor)
      requires c.len > 0 && c.at + c.len <= m.Length
      modifies m
      ensures c'.at + c'.len == c.at + c.len && c'.len < c.len
      ensures Bytewise(m[..], c'.at, LzOps(s, c'.pos, c'.len)) == Bytewise(old(m[..]), c.at, LzOps(s, c.pos, c.len))
    {
      hide Bytewise, LzBits, ValueAt;
      LzOpen(s, c.pos, c.len);
      var d := ByteAt(s, c.pos);
      c' := c.(pos := c.pos + 1);
      var i := 0;
      while i < 8 && c'.len > 0
        invariant i <= 8 && c'.at + c'.len == c.at + c.len && (i > 0 ==> c'.len < c.len) && (i == 0 ==> c'.len == c.len)
        invariant Bytewise(m[..], c'.at, LzBits(s, c'.pos, d, 8 - i, c'.len))
          == Bytewise(old(m[..]), c.at, LzOps(s, c.pos, c.len))
      {
        LzToken(s, c'.pos, d, 8 - i, c'.len);
        if d >= 128 {
          var hi, lo := ByteAt(s, c'.pos), ByteAt(s, c'.pos + 1);
          c' := c'.(pos := c'.pos + 2);
          c' := References(c', RefDist(hi, lo), RefLength(hi),
              LzBits(s, c'.pos, Twice(d), 7 - i, c'.len - Min(RefLength(hi), c'.len)));
        } else {
          BytewiseStep(m[..], c'.at, Lit(ByteAt(s, c'.pos)), LzBits(s, c'.pos + 1, Twice(d), 7 - i, c'.len - 1));
          Put(c'.at, Lit(ByteAt(s, c'.pos)));
          c' := Cursor(c'.pos + 1, c'.at + 1, c'.len - 1);
        }
        d := Twice(d);
        i := i + 1;
      }
      LzClose(s, c'.pos, d, 8 - i, c'.len);
    }

    /** cgba_swi_lz77_wram; `s` is the stream after the header word. */
    method Lz77(s: seq<Byte>, source: Word, header: Word, dest: nat)
      requires dest + header / 256 <= m.Length
      modifies m
      ensures m[..]
        == if Barred(source, header) then old(m[..]) else Bytewise(old(m[..]), dest, LzOps(s, 0, header / 256))
    {
      if Barred(source, header) { return; }
      hide LzOps;
      var c := Cursor(0, dest, header / 256);
      while c.len > 0
        invariant c.at + c.len == dest + header / 256
        invariant Bytewise(m[..], c.at, LzOps(s, c.pos, c.len)) == Bytewise(old(m[..]), dest, LzOps(s, 0, header / 256))
        decreases c.len
      { c := Block(s, c); }
    }

    method Run(c: Cursor, b: Byte, l: nat, ghost rest: seq<Emit>) returns (c': Cursor)
      requires c.at + c.len <= m.Length && |rest| == c.len - Min(l, c.len)
      modifies m
      ensures c' == Cursor(c.pos, c.at + Min(l, c.len), c.len - Min(l, c.len))
      ensures Bytewise(m[..], c'.at, rest) == Bytewise(old(m[..]), c.at, Same(b, Min(l, c.len)) + rest)
    {
      hide Bytewise, ValueAt;
      ghost var n := Min(l, c.len);
      c' := c;
      var i := 0;
      assert Same(b, 0) + rest == rest;
      while i < l && c'.len > 0
        invariant i <= n && c' == Cursor(c.pos, c.at + i, c.len - i)
        invariant Bytewise(m[..], c'.at, Same(b, n - i) + rest) == Bytewise(old(m[..]), c.at, Same(b, n) + rest)
      {
        assert Same(b, n - i) + rest == [Lit(b)] + (Same(b, n - i - 1) + rest);
        BytewiseStep(m[..], c'.at, Lit(b), Same(b, n - i - 1) + rest);
        Put(c'.at, Lit(b));
        c' := c'.(at := c'.at + 1, len := c'.len - 1);
        i := i + 1;
      }
    }
    method Literals(s: seq<Byte>, c: Cursor, l: nat, ghost rest: seq<Emit>) returns (c': Cursor)
      requires c.at + c.len <= m.Length && |rest| == c.len - Min(l, c.len)
      modifies m
      ensures var n := Min(l, c.len); c' == Cursor(c.pos + n, c.at + n, c.len - n)
      ensures Bytewise(m[..], c'.at, rest) == Bytewise(old(m[..]), c.at, Lits(s, c.pos, Min(l, c.len)) + rest)
    {
      hide Bytewise, ValueAt;
      ghost var n := Min(l, c.len);
      c' := c;
      var i := 0;
      assert Lits(s, c.pos + n, 0) + rest == rest;
      while i < l && c'.len > 0
        invariant i <= n && c' == Cursor(c.pos + i, c.at + i, c.len - i)
        invariant Bytewise(m[..], c'.at, Lits(s, c.pos + i, n - i) + rest)
          == Bytewise(old(m[..]), c.at, Lits(s, c.pos, n) + rest)
      {
        var e := Lit(ByteAt(s, c'.pos));
        assert Lits(s, c.pos + i, n - i) + rest == [e] + (Lits(s, c.pos + i + 1, n - i - 1) + rest);
        BytewiseStep(m[..], c'.at, e, Lits(s, c.pos + i + 1, n - i - 1) + rest);
        Put(c'.at, e);
        c' := Cursor(c'.pos + 1, c'.at + 1, c'.len - 1);
        i := i + 1;
      }
    }

    /** One run-length token. */
    method Token(s: seq<Byte>, c: Cursor) returns (c': Cursor)
      requires c.len > 0 && c.at + c.len <= m.Length
      modifies m
      ensures c'.at + c'.len == c.at + c.len && c'.len < c.len
      ensures Bytewise(m[..], c'.at, RlOps(s, c'.pos, c'.len)) == Bytewise(old(m[..]), c.at, RlOps(s, c.pos, c.len))
    {
      hide Bytewise, Same, Lits, RlOps;
      RlToken(s, c.pos, c.len);
      var d := ByteAt(s, c.pos);
      if d >= 128 {
        var b := ByteAt(s, c.pos + 1);
        c' := Run(c.(pos := c.pos + 2), b, d - 128 + 3, RlOps(s, c.pos + 2, c.len - Min(d - 128 + 3, c.len)));
      } else {
        c' := Literals(s, c.(pos := c.pos + 1), d + 1,
            RlOps(s, c.pos + 1 + Min(d + 1, c.len), c.len - Min(d + 1, c.len)));
      }
    }

    /** cgba_swi_rl_wram. */
    method RunLength(s: seq<Byte>, source: Word, header: Word, dest: nat)
      requires dest + header / 256 <= m.Length
      modifies m
      ensures m[..]
        == if Barred(source, header) then old(m[..]) else Bytewise(old(m[..]), dest, RlOps(s, 0, header / 256))
    {
      if Barred(source, header) { return; }
      hide RlOps;
      var c := Cursor(0, dest, header / 256);
      while c.len > 0
        invariant c.at + c.len == dest + header / 256
        invariant Bytewise(m[..], c.at, RlOps(s, c.pos, c.len)) == Bytewise(old(m[..]), dest, RlOps(s, 0, header / 256))
        decreases c.len
      { c := Token(s, c); }
    }
  }
  /** CGBA_LZV_PUSH and its three locals; `dest` is where the next halfword goes. */
  class Vram {
    var m: array<Byte>
    var dest: nat
    var byteCount: nat
    var writeValue: nat

    ghost predicate Valid() reads this { byteCount <= 1 && writeValue < 256 && (byteCount == 0 ==> writeValue == 0) }
    function Wait(): Option<Byte>
      requires Valid()
      reads this
    { if byteCount == 1 then Some(writeValue) else None }
    ghost predicate Room(n: nat) reads this { dest + byteCount + n <= m.Length }
    /** What the bytes still to come will leave in memory. */
    ghost function Outcome(ops: seq<Emit>): seq<Byte>
      requires Valid() && Room(|ops|)
      reads this, m
    { Buffered(m[..], dest, Wait(), ops) }

    constructor (m: array<Byte>, dest: nat)
      ensures this.m == m && this.dest == dest && byteCount == 0 && writeValue == 0
    { this.m, this.dest, byteCount, writeValue := m, dest, 0, 0; }

    method Put(e: Emit, ghost rest: seq<Emit>)
      requires Valid() && Room(1 + |rest|)
      modifies this, m
      ensures Valid() && m == old(m) && Room(|rest|) && Outcome(rest) == old(Outcome([e] + rest))
      ensures dest + byteCount == old(dest + byteCount) + 1
    {
      hide Buffered, ValueAt;
      BufferedStep(m[..], dest, Wait(), e, rest);
      var b: int := Fetch(e);
      writeValue := writeValue + (if byteCount == 1 then 256 * b else b);
      byteCount := byteCount + 1;
      if byteCount == 2 {
        m[dest - dest % 2], m[dest - dest % 2 + 1] := writeValue % 256, writeValue / 256;
        dest, byteCount, writeValue := dest + 2, 0, 0;
      }
    }
    method Fetch(e: Emit) returns (b: Byte)
      ensures b == ValueAt(m[..], dest + byteCount, e)
    {
      match e
      case Lit(x) => b := x;
      case Back(d) => b := if 0 <= dest + byteCount - d < m.Length then m[dest + byteCount - d] else 0;
    }

    method References(dist: nat, length: nat, len: nat, ghost rest: seq<Emit>) returns (left: nat)
      requires Valid() && |rest| == len - Min(length, len) && Room(len)
      modifies this, m
      ensures Valid() && m == old(m) && left == |rest| && Room(left)
      ensures dest + byteCount == old(dest + byteCount) + (len - left)
      ensures Outcome(rest) == old(Outcome(Refs(dist, Min(length, len)) + rest))
    {
      hide Buffered, ValueAt;
      ghost var n := Min(length, len);
      left := len;
      var i := 0;
      assert Refs(dist, 0) + rest == rest;
      while i < length && left > 0
        invariant i <= n && left == len - i && Valid() && m == old(m) && dest + byteCount == old(dest + byteCount) + i
        invariant Room(left)
        invariant Outcome(Refs(dist, n - i) + rest) == old(Outcome(Refs(dist, n) + rest))
      {
        RefsStep(dist, n - i);
        assert Refs(dist, n - i) + rest == [Back(dist)] + (Refs(dist, n - i - 1) + rest);
        Put(Back(dist), Refs(dist, n - i - 1) + rest);
        left, i := left - 1, i + 1;
      }
    }

    method Block(s: seq<Byte>, pos0: nat, len: nat) returns (pos: nat, left: nat)
      requires Valid() && len > 0 && Room(len)
      modifies this, m
      ensures Valid() && m == old(m) && left < len && Room(left)
      ensures Outcome(LzOps(s, pos, left)) == old(Outcome(LzOps(s, pos0, len)))
    {
      hide Buffered, LzBits, ValueAt;
      LzOpen(s, pos0, len);
      var d := ByteAt(s, pos0);
      pos, left := pos0 + 1, len;
      var i := 0;
      while i < 8 && left > 0
        invariant i <= 8 && left <= len && (i > 0 ==> left < len) && Valid() && m == old(m) && Room(left)
        invariant Outcome(LzBits(s, pos, d, 8 - i, left)) == old(Outcome(LzOps(s, pos0, len)))
      {
        LzToken(s, pos, d, 8 - i, left);
        if d >= 128 {
          var hi, lo := ByteAt(s, pos), ByteAt(s, pos + 1);
          pos := pos + 2;
          left := References(RefDist(hi, lo), RefLength(hi), left,
              LzBits(s, pos, Twice(d), 7 - i, left - Min(RefLength(hi), left)));
        } else {
          Put(Lit(ByteAt(s, pos)), LzBits(s, pos + 1, Twice(d), 7 - i, left - 1));
          pos, left := pos + 1, left - 1;
        }
        d := Twice(d);
        i := i + 1;
      }
      LzClose(s, pos, d, 8 - i, left);
    }

    /** cgba_swi_lz77_vram. */
    method Lz77(s: seq<Byte>, source: Word, header: Word)
      requires Valid() && byteCount == 0 && Room(header / 256)
      modifies this, m
      ensures m == old(m)
      ensures m[..]
        == if Barred(source, header) then old(m[..]) else Buffered(old(m[..]), old(dest), None,
            LzOps(s, 0, header / 256))
    {
      if Barred(source, header) { return; }
      hide LzOps;
      var pos, left: nat := 0, header / 256;
      while left > 0
        invariant Valid() && m == old(m) && Room(left)
        invariant Outcome(LzOps(s, pos, left)) == Buffered(old(m[..]), old(dest), None, LzOps(s, 0, header / 256))
        decreases left
      { pos, left := Block(s, pos, left); }
    }

    method Run(b: Byte, l: nat, len: nat, ghost rest: seq<Emit>) returns (left: nat)
      requires Valid() && |rest| == len - Min(l, len) && Room(len)
      modifies this, m
      ensures Valid() && m == old(m) && left == |rest| && Room(left)
      ensures Outcome(rest) == old(Outcome(Same(b, Min(l, len)) + rest))
    {
      hide Buffered, ValueAt;
      ghost var n := Min(l, len);
      left := len;
      var i := 0;
      assert Same(b, 0) + rest == rest;
      while i < l && left > 0
        invariant i <= n && left == len - i && Valid() && m == old(m) && Room(left)
        invariant Outcome(Same(b, n - i) + rest) == old(Outcome(Same(b, n) + rest))
      {
        assert Same(b, n - i) + rest == [Lit(b)] + (Same(b, n - i - 1) + rest);
        Put(Lit(b), Same(b, n - i - 1) + rest);
        left, i := left - 1, i + 1;
      }
    }
    method Literals(s: seq<Byte>, pos0: nat, l: nat, len: nat, ghost rest: seq<Emit>) returns (pos: nat, left: nat)
      requires Valid() && |rest| == len - Min(l, len) && Room(len)
      modifies this, m
      ensures Valid() && m == old(m) && left == |rest| && Room(left) && pos == pos0 + Min(l, len)
      ensures Outcome(rest) == old(Outcome(Lits(s, pos0, Min(l, len)) + rest))
    {
      hide Buffered, ValueAt;
      ghost var n := Min(l, len);
      pos, left := pos0, len;
      var i := 0;
      assert Lits(s, pos0 + n, 0) + rest == rest;
      while i < l && left > 0
        invariant i <= n && left == len - i && pos == pos0 + i && Valid() && m == old(m) && Room(left)
        invariant Outcome(Lits(s, pos0 + i, n - i) + rest) == old(Outcome(Lits(s, pos0, n) + rest))
      {
        var e := Lit(ByteAt(s, pos));
        assert Lits(s, pos0 + i, n - i) + rest == [e] + (Lits(s, pos0 + i + 1, n - i - 1) + rest);
        Put(e, Lits(s, pos0 + i + 1, n - i - 1) + rest);
        pos, left, i := pos + 1, left - 1, i + 1;
      }
    }

    method Token(s: seq<Byte>, pos0: nat, len: nat) returns (pos: nat, left: nat)
      requires Valid() && len > 0 && Room(len)
      modifies this, m
      ensures Valid() && m == old(m) && left < len && Room(left)
      ensures Outcome(RlOps(s, pos, left)) == old(Outcome(RlOps(s, pos0, len)))
    {
      hide Same, Lits, RlOps, Buffered;
      RlToken(s, pos0, len);
      var d := ByteAt(s, pos0);
      if d >= 128 {
        pos := pos0 + 2;
        left := Run(ByteAt(s, pos0 + 1), d - 128 + 3, len, RlOps(s, pos, len - Min(d - 128 + 3, len)));
      } else {
        pos, left := Literals(s, pos0 + 1, d + 1, len, RlOps(s, pos0 + 1 + Min(d + 1, len), len - Min(d + 1, len)));
      }
    }

    /** cgba_swi_rl_vram. */
    method RunLength(s: seq<Byte>, source: Word, header: Word)
      requires Valid() && byteCount == 0 && Room(header / 256)
      modifies this, m
      ensures m == old(m)
      ensures m[..]
        == if Barred(source, header) then old(m[..]) else Buffered(old(m[..]), old(dest), None,
            RlOps(s, 0, header / 256))
    {
      if Barred(source, header) { return; }
      hide RlOps;
      var pos: nat, left: nat := 0, header / 256;
      while left > 0
        invariant Valid() && m == old(m) && Room(left)
        invariant Outcome(RlOps(s, pos, left)) == Buffered(old(m[..]), old(dest), None, RlOps(s, 0, header / 256))
        decreases left
      { pos, left := Token(s, pos, left); }
    }
  }

  // ---- whole streams --------------------------------------------------------------------

  lemma {:induction false} LzSound(s: seq<Byte>, pos: nat, len: nat)
    ensures Sound(LzOps(s, pos, len))
    decreases 2 * len + 7
  { if len > 0 { LzBitsSound(s, pos + 1, ByteAt(s, pos), 8, len); } }
  lemma {:induction false} LzBitsSound(s: seq<Byte>, pos: nat, d: Byte, left: nat, len: nat)
    requires left <= 8
    ensures Sound(LzBits(s, pos, d, left, len))
    decreases 2 * len + 8 - left
  {
    if len > 0 {
      if left == 0 { LzSound(s, pos, len); LzClose(s, pos, d, left, len); }
      else {
        LzToken(s, pos, d, left, len);
        if d >= 128 { LzBitsSound(s, pos + 2, Twice(d), left - 1, len - Min(RefLength(ByteAt(s, pos)), len)); }
        else { LzBitsSound(s, pos + 1, Twice(d), left - 1, len - 1); }
      }
    }
    hide LzBits, LzOps;
  }
  lemma {:induction false} RlPlain(s: seq<Byte>, pos: nat, len: nat)
    ensures forall i :: 0 <= i < len ==> RlOps(s, pos, len)[i].Lit?
    decreases len
  {
    if len > 0 {
      RlToken(s, pos, len);
      var d := ByteAt(s, pos);
      if d >= 128 {
        RlPlain(s, pos + 2, len - Min(d - 128 + 3, len));
      } else {
        RlPlain(s, pos + 1 + Min(d + 1, len), len - Min(d + 1, len));
      }
    }
    hide RlOps;
  }
  lemma RlToken(s: seq<Byte>, pos: nat, len: nat)
    requires len > 0
    ensures var d := ByteAt(s, pos);
      RlOps(s, pos, len) ==
        if d >= 128 then Same(ByteAt(s, pos + 1), Min(d - 128 + 3, len)) + RlOps(s, pos + 2,
            len - Min(d - 128 + 3, len))
        else Lits(s, pos + 1, Min(d + 1, len)) + RlOps(s, pos + 1 + Min(d + 1, len), len - Min(d + 1, len))
  {}

  /** LZ77, even output length. At an even destination both decoders leave the same memory if and
      only if every distance-1 reference at an odd offset finds its byte already there; at an odd
      one if and only if the buffered decoder stores nothing but the byte below the destination,
      which its last byte holds already. */
  lemma LzAgree(m: seq<Byte>, dest: nat, s: seq<Byte>, len: nat)
    requires dest + len <= |m| && len % 2 == 0
    ensures Buffered(m, dest, None, LzOps(s, 0, len)) == Bytewise(m, dest, LzOps(s, 0, len))
      <==> if dest % 2 == 0 then Echoed(m, dest, LzOps(s, 0, len)) else Still(m, dest, m[dest - 1], LzOps(s, 0, len))
  {
    LzSound(s, 0, len);
    hide LzOps;
    if dest % 2 == 0 { AgreeIff(m, dest, LzOps(s, 0, len)); }
    else {
      OddAgreeIff(m, dest, m[dest - 1], LzOps(s, 0, len));
      assert m[dest - 1 := m[dest - 1]] == m;
    }
  }

  ghost predicate SameOutside(m: seq<Byte>, m': seq<Byte>, dest: nat, len: nat)
    requires dest + len <= |m|
  { |m'| == |m| && m'[..dest] == m[..dest] && m'[dest + len..] == m[dest + len..] }
  /** Whatever the destination held before, both decoders leave the same memory. */
  ghost predicate AlwaysAgree(m: seq<Byte>, dest: nat, ops: seq<Emit>)
    requires dest + |ops| <= |m|
  { forall m' :: SameOutside(m, m', dest, |ops|) ==> Buffered(m', dest, None, ops) == Bytewise(m', dest, ops) }

  /** A stream decodes alike over every old content of the destination if and only if it is empty,
      or the destination is even and no distance-1 reference stands at an odd offset. */
  lemma LzAlwaysAgree(m: seq<Byte>, dest: nat, s: seq<Byte>, len: nat)
    requires dest + len <= |m| && len % 2 == 0
    ensures AlwaysAgree(m, dest, LzOps(s, 0, len)) <==> len == 0 || (dest % 2 == 0 && NoOddRepeat(LzOps(s, 0, len)))
  {
    LzSound(s, 0, len);
    hide LzOps, Echoed, Buffered, Bytewise, NoOddRepeat, Sound, Still;
    var ops := LzOps(s, 0, len);
    if len == 0 { NothingDiffers(m, dest, ops); }
    else if dest % 2 == 1 { OddDiffers(m, dest, ops); }
    else if NoOddRepeat(ops) {
      forall m' | SameOutside(m, m', dest, |ops|) ensures Buffered(m', dest, None, ops) == Bytewise(m', dest, ops) {
        NoRepeatEchoes(m', dest, ops); AgreeIff(m', dest, ops);
      }
    } else {
      var m' := RepeatDiffers(m, dest, ops);
      AgreeIff(m', dest, ops);
      assert SameOutside(m, m', dest, |ops|);
    }
  }

  lemma NothingDiffers(m: seq<Byte>, dest: nat, ops: seq<Emit>)
    requires dest <= |m| && ops == []
    ensures AlwaysAgree(m, dest, ops)
  {}
  lemma OddDiffers(m: seq<Byte>, dest: nat, ops: seq<Emit>)
    requires dest % 2 == 1 && dest + |ops| <= |m| && |ops| % 2 == 0 && |ops| > 0 && Sound(ops)
    ensures !AlwaysAgree(m, dest, ops)
  {
    hide Buffered, Bytewise, Still;
    var v, last := m[dest - 1], dest + |ops| - 1;
    var m' := m[last := if v == 0 then 1 else 0];
    OddAgreeIff(m', dest, v, ops);
    assert m'[dest - 1 := v] == m';
    if Still(m', dest, v, ops) { StillLast(m', dest, v, ops); }
    assert SameOutside(m, m', dest, |ops|);
  }

  /** The run-length pair agrees on every even output length at an even destination; at an odd one
      only when all it writes is one byte that both neighbours hold already. */
  lemma RlAgree(m: seq<Byte>, dest: nat, s: seq<Byte>, len: nat)
    requires dest + len <= |m| && len % 2 == 0
    ensures Buffered(m, dest, None, RlOps(s, 0, len)) == Bytewise(m, dest, RlOps(s, 0, len))
      <==> (dest % 2 == 0
        || (m[dest + len - 1] == m[dest - 1] && forall i :: 0 <= i < len ==> RlOps(s, 0, len)[i] == Lit(m[dest - 1])))
  {
    RlPlain(s, 0, len);
    hide RlOps, Buffered, Bytewise, Still, Echoed;
    var ops := RlOps(s, 0, len);
    if dest % 2 == 0 { NoRepeatEchoes(m, dest, ops); AgreeIff(m, dest, ops); }
    else {
      OddAgreeIff(m, dest, m[dest - 1], ops);
      assert m[dest - 1 := m[dest - 1]] == m;
      StillLits(m, dest, m[dest - 1], ops);
    }
  }
  lemma LitPair(s: seq<Byte>, a: Byte, b: Byte)
    requires s == [1, a, b]
    ensures Lits(s, 1, 2) + RlOps(s, 3, 0) == [Lit(a), Lit(b)]
  {}
  /** A literal pair at 0x0200_0001 lands one byte low. */
  lemma OddShifts(m: seq<Byte>, a: Byte, b: Byte)
    requires |m| >= 3
    ensures Bytewise(m, 1, RlOps([1, a, b], 0, 2)) == m[1 := a][2 := b]
    ensures Buffered(m, 1, None, RlOps([1, a, b], 0, 2)) == m[0 := a][1 := b]
  {
    var s := [1, a, b];
    RlToken(s, 0, 2);
    LitPair(s, a, b);
    TwoSteps(m, 1, [Lit(a), Lit(b)]);
    assert [Lit(a), Lit(b)][2..] == [];
    hide RlOps, Lits;
  }
  /** An odd length loses its last byte: it waits for a neighbour that never comes. */
  lemma {:induction false} OddLosesLast(m: seq<Byte>, at: nat, ops: seq<Emit>)
    requires at + |ops| <= |m| && |ops| % 2 == 1
    ensures Buffered(m, at, None, ops) == Buffered(m, at, None, ops[..|ops| - 1])
    ensures Buffered(m, at, None, ops)[at + |ops| - 1] == m[at + |ops| - 1]
    decreases |ops|
  {
    if |ops| == 1 { assert ops[..0] == []; assert ops[1..] == []; }
    else {
      var cut := ops[..|ops| - 1];
      TwoSteps(m, at, ops); TwoSteps(m, at, cut);
      assert cut[2..] == ops[2..][..|ops| - 3];
      OddLosesLast(Store16(m, at, ValueAt(m, at, ops[0]), ValueAt(m, at + 1, ops[1])), at + 2, ops[2..]);
      hide Buffered, ValueAt;
    }
  }

  lemma BufferedStep(m: seq<Byte>, at: nat, wait: Option<Byte>, e: Emit, rest: seq<Emit>)
    requires at + 1 + |rest| + (if wait.Some? then 1 else 0) <= |m|
    ensures wait.None? ==> Buffered(m, at, wait, [e] + rest) == Buffered(m, at, Some(ValueAt(m, at, e)), rest)
    ensures wait.Some? ==>
      Buffered(m, at, wait, [e] + rest)
        == Buffered(Store16(m, at, wait.value, ValueAt(m, at + 1, e)), at + 2, None, rest)
  { assert ([e] + rest)[1..] == rest; }
  lemma LzOpen(s: seq<Byte>, pos: nat, len: nat)
    requires len > 0
    ensures LzOps(s, pos, len) == LzBits(s, pos + 1, ByteAt(s, pos), 8, len)
  {}
  lemma LzClose(s: seq<Byte>, pos: nat, d: Byte, left: nat, len: nat)
    requires left <= 8 && (left == 0 || len == 0)
    ensures LzBits(s, pos, d, left, len) == LzOps(s, pos, len)
  {}
  lemma LzToken(s: seq<Byte>, pos: nat, d: Byte, left: nat, len: nat)
    requires 0 < left <= 8 && len > 0
    ensures d >= 128 ==> var n := Min(RefLength(ByteAt(s, pos)), len);
      n > 0 && LzBits(s, pos, d, left, len)
      == Refs(RefDist(ByteAt(s, pos), ByteAt(s, pos + 1)), n) + LzBits(s, pos + 2, Twice(d), left - 1, len - n)
    ensures d < 128 ==>
      LzBits(s, pos, d, left, len) == [Lit(ByteAt(s, pos))] + LzBits(s, pos + 1, Twice(d), left - 1, len - 1)
  {}
}
