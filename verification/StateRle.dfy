/** Savestate compression: the word-RLE stream, its writer and its reader. */
module StateRle {
  import opened Words
  import opened Sh4

  const MAGIC: Word := 0x435A_5331
  const RUN_BIT: Word := 0x8000_0000

  // ---- the stream ----------------------------------------------------------

  function Repeat(v: Word, n: nat): (s: seq<Word>)
    ensures |s| == n && forall i :: 0 <= i < n ==> s[i] == v
  { seq(n, _ => v) }

  /** Tokens read until n words are produced; None for a stream that ends or overruns first. */
  function Expand(o: seq<Word>, n: nat): (r: Option<seq<Word>>)
    ensures r.Some? ==> |r.value| == n
  {
    if n == 0 then Some([])
    else if o == [] then None
    else if o[0] >= RUN_BIT then
      var run := o[0] - RUN_BIT;
      if |o| < 2 || run > n then None
      else
        var rest := Expand(o[2..], n - run);
        if rest.None? then None else Some(Repeat(o[1], run) + rest.value)
    else
      if 1 + o[0] > |o| || o[0] > n then None
      else
        var rest := Expand(o[1 + o[0]..], n - o[0]);
        if rest.None? then None else Some(o[1..1 + o[0]] + rest.value)
  }

  /** Length of the constant run x starts with. */
  function RunLen(x: seq<Word>): (r: nat)
    requires x != []
    ensures 1 <= r <= |x| && forall i :: 0 <= i < r ==> x[i] == x[0]
    ensures r < |x| ==> x[r] != x[0]
  {
    if |x| > 1 && x[1] == x[0] then 1 + RunLen(x[1..]) else 1
  }
  predicate Run3(x: seq<Word>) { |x| >= 3 && x[1] == x[0] && x[2] == x[0] }

  /** Words before the next run of three: taken one at a time, or as an equal pair. */
  function LitLen(x: seq<Word>): (l: nat)
    ensures l <= |x| && (l == |x| || Run3(x[l..]))
    ensures x != [] && !Run3(x) ==> l > 0
  {
    if x == [] || Run3(x) then 0
    else if |x| >= 2 && x[1] == x[0] then 2 + LitLen(x[2..])
    else 1 + LitLen(x[1..])
  }
  lemma RunIsRun3(x: seq<Word>)
    requires x != []
    ensures RunLen(x) >= 3 <==> Run3(x)
  {
    if |x| >= 3 && x[1] == x[0] {
      assert RunLen(x) == 1 + RunLen(x[1..]); assert RunLen(x[1..]) >= 2 <==> x[2] == x[1];
    }
  }

  function Tokens(x: seq<Word>): (o: seq<Word>)
    requires |x| < 0x4000_0000
    decreases |x|
  {
    if x == [] then []
    else if RunLen(x) >= 3 then [RUN_BIT + RunLen(x), x[0]] + Tokens(x[RunLen(x)..])
    else
      RunIsRun3(x);
      [LitLen(x)] + x[..LitLen(x)] + Tokens(x[LitLen(x)..])
  }

  lemma ReadRun(v: Word, run: nat, rest: seq<Word>, y: seq<Word>)
    requires 0 < run < 0x4000_0000 && Expand(rest, |y|) == Some(y)
    ensures Expand([RUN_BIT + run, v] + rest, run + |y|) == Some(Repeat(v, run) + y)
  { assert ([RUN_BIT + run, v] + rest)[2..] == rest; }
  lemma ReadLit(lit: seq<Word>, rest: seq<Word>, y: seq<Word>)
    requires 0 < |lit| < 0x4000_0000 && Expand(rest, |y|) == Some(y)
    ensures Expand([|lit|] + lit + rest, |lit| + |y|) == Some(lit + y)
  {
    var o := [|lit|] + lit + rest;
    assert o[1 + |lit|..] == rest && o[1..1 + |lit|] == lit;
  }
  /** The reader gets the words back, whatever follows the stream. */
  lemma {:induction false} ExpandTokens(x: seq<Word>, tail: seq<Word>)
    requires |x| < 0x4000_0000
    ensures Expand(Tokens(x) + tail, |x|) == Some(x)
    decreases |x|
  {
    hide Expand, Run3, RunLen, LitLen;
    if x == [] { ExpandNone(Tokens(x) + tail); }
    else if RunLen(x) >= 3 {
      var r := RunLen(x);
      var rest := Tokens(x[r..]);
      ExpandTokens(x[r..], tail);
      ReadRun(x[0], r, rest + tail, x[r..]);
      assert Repeat(x[0], r) + x[r..] == x;
      Joined([RUN_BIT + r, x[0]], rest, tail);
    } else {
      RunIsRun3(x);
      var l := LitLen(x);
      var rest := Tokens(x[l..]);
      ExpandTokens(x[l..], tail);
      ReadLit(x[..l], rest + tail, x[l..]);
      assert x[..l] + x[l..] == x;
      Joined([l] + x[..l], rest, tail);
    }
  }
  lemma Joined(a: seq<Word>, b: seq<Word>, c: seq<Word>) ensures (a + b) + c == a + (b + c) {}
  lemma ExpandNone(o: seq<Word>) ensures Expand(o, 0) == Some([]) {}

  /** A literal token is followed by a run that pays for its header, but for a last one. */
  lemma {:induction false} TokensShort(x: seq<Word>)
    requires |x| < 0x4000_0000
    ensures |Tokens(x)| <= |x| + 1 && (x == [] || Run3(x) ==> |Tokens(x)| <= |x|)
    decreases |x|
  {
    if x == [] {}
    else {
      RunIsRun3(x);
      if RunLen(x) >= 3 {
        TokensShort(x[RunLen(x)..]);
      } else {
        var y := x[LitLen(x)..];
        TokensShort(y);
      }
    }
  }

  /** The file: magic, raw size in bytes, tokens. */
  function Stream(rawsz: Word, x: seq<Word>): seq<Word>
    requires |x| < 0x4000_0000
  { [MAGIC, rawsz] + Tokens(x) }

  /** What cgba_state_decompress makes of its input words. */
  function Decompressed(o: seq<Word>, rawsz: Word): Option<seq<Word>> {
    if |o| < 2 || o[0] != MAGIC || o[1] != rawsz then None else Expand(o[2..], rawsz / 4)
  }
  /** Size cgba_state_compress returns: 0 when the stream, or four words, do not fit. */
  function CompressedSize(rawsz: Word, x: seq<Word>, cap: nat): nat
    requires |x| < 0x4000_0000
  { if cap / 4 < 4 || |Stream(rawsz, x)| > cap / 4 then 0 else 4 * |Stream(rawsz, x)| }

  /** Every non-empty image compresses into raw + 12 bytes and comes back exactly, with any tail
      of slack words after the stream. */
  lemma RoundTrip(rawsz: Word, x: seq<Word>, cap: nat, tail: seq<Word>)
    requires |x| == rawsz / 4 && x != [] && cap >= rawsz + 12
    ensures 0 < CompressedSize(rawsz, x, cap) <= rawsz + 12
    ensures Decompressed(Stream(rawsz, x) + tail, rawsz) == Some(x)
  {
    hide Tokens, Expand, Run3;
    TokensShort(x);
    ExpandTokens(x, tail);
    assert (Stream(rawsz, x) + tail)[2..] == Tokens(x) + tail;
  }
  /** The bound is met: a single word costs all twelve extra bytes. The empty image, though its
      stream has two words, is refused at that capacity. */
  lemma BoundIsTight(v: Word)
    ensures CompressedSize(4, [v], 16) == 16 && CompressedSize(0, [], 12) == 0
  {
    assert Tokens([v]) == [1, v] by { assert [v][1..] == []; }
  }

  // ---- the loops -----------------------------------------------------------

  method MeasureRun(w: array<Word>, i: nat, n: nat) returns (run: nat)
    requires i < n <= w.Length && n < 0x4000_0000
    ensures run == RunLen(w[i..n])
  {
    ghost var x := w[i..n];
    run := 1;
    while i + run < n && w[i + run] == w[i] && run < 0x7FFF_FFFF
      invariant 1 <= run <= n - i && RunLen(x) == run - 1 + RunLen(x[run - 1..]) && x[run - 1] == x[0]
    {
      assert x[run - 1..][1..] == x[run..];
      run := run + 1;
    }
    assert x[run - 1..][0] == x[0];
  }

  /** Equal words at j, up to three. */
  method MeasurePair(w: array<Word>, j: nat, n: nat) returns (r: nat)
    requires j < n <= w.Length
    ensures 1 <= r <= 3 && j + r <= n
    ensures var x := w[j..n];
      (r == 3 <==> Run3(x)) && (r == 2 <==> |x| >= 2 && x[1] == x[0] && !Run3(x))
  {
    ghost var x := w[j..n];
    r := 1;
    while j + r < n && w[j + r] == w[j] && r < 3
      invariant 1 <= r <= 3 && j + r <= n && (r >= 2 ==> x[1] == x[0]) && (r >= 3 ==> x[2] == x[0])
    { r := r + 1; }
  }

  method MeasureLit(w: array<Word>, i: nat, n: nat) returns (lit: nat)
    requires i <= n <= w.Length
    ensures lit == LitLen(w[i..n])
  {
    hide Run3, LitLen;
    var j := i;
    lit := 0;
    while j < n
      invariant i <= j <= n && lit == j - i && LitLen(w[i..n]) == lit + LitLen(w[j..n])
    {
      var r := MeasurePair(w, j, n);
      LitStep(w[j..n]);
      if r >= 3 { return; }
      assert w[j..n][r..] == w[j + r..n];
      j := j + r;
      lit := lit + r;
    }
  }

  lemma LitStep(x: seq<Word>)
    requires x != []
    ensures LitLen(x)
      == if Run3(x) then 0 else if |x| >= 2 && x[1] == x[0] then 2 + LitLen(x[2..]) else 1 + LitLen(x[1..])
  {}
  lemma TokenStep(x: seq<Word>)
    requires 0 < |x| < 0x4000_0000
    ensures RunLen(x) >= 3 ==> Tokens(x) == [RUN_BIT + RunLen(x), x[0]] + Tokens(x[RunLen(x)..])
    ensures RunLen(x) < 3 ==> LitLen(x) > 0 && Tokens(x) == [LitLen(x)] + x[..LitLen(x)] + Tokens(x[LitLen(x)..])
  { RunIsRun3(x); hide RunLen, LitLen, Run3; }

  /** cgba_state_compress, over the words of both buffers. */
  method Compress(w: array<Word>, rawsz: Word, o: array<Word>, cap: nat) returns (size: nat)
    requires w != o && rawsz / 4 <= w.Length && cap / 4 <= o.Length
    modifies o
    ensures size == CompressedSize(rawsz, w[..rawsz / 4], cap)
    ensures size > 0 ==> o[..size / 4] == Stream(rawsz, w[..rawsz / 4])
  {
    hide Tokens;
    var n, ocap := rawsz / 4, cap / 4;
    if ocap < 4 { return 0; }
    o[0], o[1] := MAGIC, rawsz;
    var ok, ow := WriteTokens(w, n, o, ocap);
    if !ok { return 0; }
    return 4 * ow;
  }
  /** The token loop, from output word 2. */
  method WriteTokens(w: array<Word>, n: nat, o: array<Word>, ocap: nat) returns (ok: bool, ow: nat)
    requires w != o && n <= w.Length && n < 0x4000_0000 && 2 <= ocap <= o.Length
    modifies o
    ensures ow <= ocap
    ensures ok ==> o[..ow] == old(o[..2]) + Tokens(w[..n])
    ensures !ok ==> |Tokens(w[..n])| > ocap - 2
  {
    hide Tokens;
    var i := 0;
    ow := 2;
    assert w[0..n] == w[..n];
    while i < n
      invariant i <= n && 2 <= ow <= ocap
      invariant o[..ow] + Tokens(w[i..n]) == old(o[..2]) + Tokens(w[..n])
    {
      var fits, taken, ow1 := PutToken(w, i, n, o, ow, ocap);
      if !fits { return false, ow; }
      i, ow := i + taken, ow1;
    }
    NoTokens(w[n..n]);
    ok := true;
  }
  lemma NoTokens(x: seq<Word>) requires x == [] ensures Tokens(x) == [] {}

  /** One run or literal; not ok when it does not fit. */
  method PutToken(w: array<Word>, i: nat, n: nat, o: array<Word>, ow0: nat, ocap: nat)
    returns (ok: bool, taken: nat, ow: nat)
    requires w != o && i < n <= w.Length && n < 0x4000_0000 && ow0 <= ocap <= o.Length
    modifies o
    ensures 0 < taken <= n - i && ow <= ocap
    ensures !ok ==> |Tokens(w[i..n])| > ocap - ow0
    ensures ok ==> o[..ow] + Tokens(w[i + taken..n]) == old(o[..ow0]) + Tokens(w[i..n])
    ensures ow0 <= ow
  {
    hide Tokens, RunLen, LitLen;
    ghost var x := w[i..n];
    TokenStep(x);
    ok, ow := true, ow0;
    taken := MeasureRun(w, i, n);
    if taken >= 3 {
      assert x[taken..] == w[i + taken..n];
      if ow + 2 > ocap { return false, taken, ow; }
      ow := PutRun(o, ow, taken, w[i]);
    } else {
      taken := MeasureLit(w, i, n);
      assert x[taken..] == w[i + taken..n] && x[..taken] == w[i..i + taken];
      if ow + 1 + taken > ocap { return false, taken, ow; }
      ow := PutLiteral(w, i, taken, o, ow);
    }
  }
  method PutRun(o: array<Word>, ow0: nat, run: nat, v: Word) returns (ow: nat)
    requires ow0 + 2 <= o.Length && run < 0x4000_0000
    modifies o
    ensures ow == ow0 + 2 && o[..ow] == old(o[..ow0]) + [RUN_BIT + run, v]
  { o[ow0], o[ow0 + 1] := RUN_BIT + run, v; ow := ow0 + 2; }
  method PutLiteral(w: array<Word>, i: nat, lit: nat, o: array<Word>, ow0: nat) returns (ow: nat)
    requires w != o && i + lit <= w.Length && ow0 + 1 + lit <= o.Length && lit < 0x4000_0000
    modifies o
    ensures ow == ow0 + 1 + lit && o[..ow] == old(o[..ow0]) + [lit] + w[i..i + lit]
  {
    o[ow0] := lit;
    ow := ow0 + 1;
    var k := 0;
    while k < lit
      invariant k <= lit && ow == ow0 + 1 + k && o[..ow] == old(o[..ow0]) + [lit] + w[i..i + k]
    {
      o[ow] := w[i + k];
      ow, k := ow + 1, k + 1;
    }
  }

  /** cgba_state_decompress. */
  method Decompress(o: array<Word>, insz: nat, w: array<Word>, rawsz: Word) returns (ok: bool)
    requires w != o && rawsz / 4 <= w.Length && insz / 4 <= o.Length
    modifies w
    ensures ok == Decompressed(o[..insz / 4], rawsz).Some?
    ensures ok ==> w[..rawsz / 4] == Decompressed(o[..insz / 4], rawsz).value
    ensures w[rawsz / 4..] == old(w[rawsz / 4..])
  {
    hide Expand;
    var icap, n := insz / 4, rawsz / 4;
    var iw, i: nat := 2, 0;
    if icap < 2 || o[0] != MAGIC || o[1] != rawsz { return false; }
    assert o[..icap][2..] == o[2..icap];
    AfterNothing(Expand(o[2..icap], n));
    while i < n && iw < icap
      invariant i <= n && 2 <= iw <= icap && w[n..] == old(w[n..])
      invariant Expand(o[2..icap], n) == Prefixed(w[..i], Expand(o[iw..icap], n - i))
      decreases icap - iw
    {
      var ok, ir, ic := ReadOne(o, iw, icap, w, i, n);
      if !ok { return false; }
      iw, i := ir, ic;
    }
    ReadEnd(o[iw..icap], n - i);
    assert i == n ==> w[..n] + [] == w[..n];
    return i == n;
  }
  /** One token; not ok when it overruns either buffer. */
  method ReadOne(o: array<Word>, iw: nat, icap: nat, w: array<Word>, i: nat, n: nat)
    returns (ok: bool, ir: nat, ic: nat)
    requires w != o && iw < icap <= o.Length && i < n <= w.Length
    modifies w
    ensures w[n..] == old(w[n..])
    ensures !ok ==> Expand(o[iw..icap], n - i) == None
    ensures ok ==> iw < ir <= icap && i <= ic <= n
    ensures ok ==>
      Prefixed(old(w[..i]), Expand(o[iw..icap], n - i)) == Prefixed(w[..ic], Expand(o[ir..icap], n - ic))
  {
    hide Expand;
    ghost var t, was := o[iw..icap], w[..i];
    ReadToken(t, n - i);
    var hdr := o[iw];
    if hdr >= RUN_BIT {
      var run := hdr - RUN_BIT;
      ir, ic := iw + 2, i + run;
      if iw + 1 >= icap || i + run > n { return false, iw, i; }
      assert t[2..] == o[iw + 2..icap];
      FillRun(w, i, run, o[iw + 1]);
      AfterBoth(was, Repeat(t[1], run), Expand(t[2..], n - i - run));
    } else {
      ir, ic := iw + 1 + hdr, i + hdr;
      if ir > icap || ic > n { return false, iw, i; }
      SubSlice(o[..], iw, icap, 1, 1 + hdr); SubSlice(o[..], iw, icap, 1 + hdr, icap - iw);
      CopyLiteral(o, iw + 1, hdr, w, i);
      AfterBoth(was, t[1..1 + hdr], Expand(t[1 + hdr..], n - i - hdr));
    }
    ok := true;
  }
  lemma SubSlice(s: seq<Word>, a: nat, b: nat, c: nat, d: nat)
    requires a + c <= a + d <= b <= |s|
    ensures s[a..b][c..d] == s[a + c..a + d]
  {
    var x, y := s[a..b][c..d], s[a + c..a + d];
    assert |x| == |y|;
    forall k | 0 <= k < d - c ensures x[k] == y[k]
    { assert x[k] == s[a..b][c + k]; assert s[a..b][c + k] == s[a + (c + k)]; }
  }
  function Prefixed(p: seq<Word>, r: Option<seq<Word>>): Option<seq<Word>> {
    if r.None? then None else Some(p + r.value)
  }
  lemma AfterNothing(r: Option<seq<Word>>)
    ensures Prefixed([], r) == r
  { if r.Some? { assert [] + r.value == r.value; } }
  lemma AfterBoth(a: seq<Word>, b: seq<Word>, r: Option<seq<Word>>)
    ensures Prefixed(a, Prefixed(b, r)) == Prefixed(a + b, r)
  { if r.Some? { assert a + (b + r.value) == (a + b) + r.value; } }
  lemma ReadToken(t: seq<Word>, m: nat)
    requires t != [] && m > 0
    ensures t[0] >= RUN_BIT ==>
      Expand(t, m) == if |t| < 2 || t[0] - RUN_BIT > m then None
                      else Prefixed(Repeat(t[1], t[0] - RUN_BIT), Expand(t[2..], m - (t[0] - RUN_BIT)))
    ensures t[0] < RUN_BIT ==>
      Expand(t, m) == if 1 + t[0] > |t| || t[0] > m then None
                      else Prefixed(t[1..1 + t[0]], Expand(t[1 + t[0]..], m - t[0]))
  {}
  lemma ReadEnd(t: seq<Word>, m: nat)
    ensures Expand(t, m) == if m == 0 then Some([]) else if t == [] then None else Expand(t, m)
  {}

  method FillRun(w: array<Word>, i: nat, run: nat, v: Word)
    requires i + run <= w.Length
    modifies w
    ensures w[..] == old(w[..i]) + Repeat(v, run) + old(w[i + run..])
  {
    var k := 0;
    while k < run
      invariant k <= run && w[..] == old(w[..i]) + Repeat(v, k) + old(w[i + k..])
    {
      w[i + k] := v;
      k := k + 1;
    }
  }
  method CopyLiteral(o: array<Word>, iw: nat, hdr: nat, w: array<Word>, i: nat)
    requires o != w && iw + hdr <= o.Length && i + hdr <= w.Length
    modifies w
    ensures w[..] == old(w[..i]) + o[iw..iw + hdr] + old(w[i + hdr..])
  {
    var k := 0;
    while k < hdr
      invariant k <= hdr && w[..] == old(w[..i]) + o[iw..iw + k] + old(w[i + k..])
    {
      w[i + k] := o[iw + k];
      k := k + 1;
    }
  }
}
