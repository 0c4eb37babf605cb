/** One engine chunk against the BIOS loop, and memory the environment may touch meanwhile. */
module Chunks {
  import opened Words
  import opened Sh4
  import opened GuestBus

  // ---- one chunk -------------------------------------------------------------

  /** The per-element path, for a destination without a linear host range. */
  function StoreEach(b: Bus, s: nat, dst: nat, w: Width, n: nat): (b': Bus)
    requires Valid(b) && s + Len(n, w) <= |b.mem|
    ensures Valid(b') && b'.pages == b.pages && |b'.mem| == |b.mem|
    decreases n
  { if n == 0 then b else StoreEach(Store(b, dst, b.mem[s..s + w]), s + w, dst + w, w, n - 1) }

  /** A copy chunk as the engines make it; None when the source does not resolve. `forward`
      is CGBA_SH4_SWI_FORWARD_OVERLAP. */
  function CopyChunk(b: Bus, src: nat, dst: nat, w: Width, n: nat, forward: bool): Option<Bus>
    requires Valid(b) && n > 0
  {
    var len := Len(n, w);
    if SrcHost(b.pages, src, len).None? then None
    else
      SrcSub(b, src, len, 0, len);
      var s := SrcHost(b.pages, src, len).value;
      if RamHost(dst, len).Some? then
        RamSub(dst, len, 0, len);
        var d := RamHost(dst, len).value;
        Some(b.(mem := if forward && s < d < s + len then CopyForward(b.mem, s, d, w, n) else PutEl(b.mem, s, d, len)))
      else Some(StoreEach(b, s, dst, w, n))
  }

  predicate Apart(pages: map<nat, nat>, y: nat, x: nat) {
    RamHost(x, 1).Some? ==> RamHost(x, 1) != SrcHost(pages, y, 1)
  }
  /** No destination byte is, through any mirror, a source byte read later on. */
  ghost predicate Unfed(pages: map<nat, nat>, src: nat, dst: nat, len: nat) {
    forall x, y :: dst <= x && src <= y < src + len && x - dst < y - src ==> Apart(pages, y, x)
  }

  lemma {:induction false} EachIsCopy(b: Bus, src: nat, s: nat, dst: nat, w: Width, n: nat)
    requires Valid(b) && n > 0 && SrcHost(b.pages, src, Len(n, w)) == Some(s)
    ensures s + Len(n, w) <= |b.mem| && StoreEach(b, s, dst, w, n) == CopyEls(b, src, dst, w, n)
    decreases n
  {
    hide SrcHost, RamHost, Valid, Store, Load;
    SourceStep(b, src, s, w, n);
    if n > 1 { EachIsCopy(CopyEl(b, src, dst, w), src + w, s + w, dst + w, w, n - 1); }
    else { OneEach(b, src, s, dst, w); }
  }
  lemma OneEach(b: Bus, src: nat, s: nat, dst: nat, w: Width)
    requires Valid(b) && s + w <= |b.mem| && Load(b, src, w) == b.mem[s..s + w]
    ensures StoreEach(b, s, dst, w, 1) == CopyEls(b, src, dst, w, 1)
  {
    hide Valid, Store, Load;
    var b1 := CopyEl(b, src, dst, w);
    assert CopyEls(b1, src + w, dst + w, w, 0) == b1;
    assert StoreEach(b1, s + w, dst + w, w, 0) == b1;
  }
  lemma SourceStep(b: Bus, src: nat, s: nat, w: Width, n: nat)
    requires Valid(b) && n > 0 && SrcHost(b.pages, src, Len(n, w)) == Some(s)
    ensures s + Len(n, w) <= |b.mem| && Load(b, src, w) == b.mem[s..s + w]
    ensures n > 1 ==> SrcHost(b.pages, src + w, Len(n - 1, w)) == Some(s + w)
  {
    SrcSub(b, src, Len(n, w), 0, w);
    if n > 1 { SrcSub(b, src, Len(n, w), w, Len(n - 1, w)); }
    hide SrcHost;
  }

  /** Every chunk the engine completes is n steps of the BIOS loop. */
  lemma ChunkIsCopy(b: Bus, src: nat, dst: nat, w: Width, n: nat, forward: bool)
    requires Valid(b) && n > 0 && SrcHost(b.pages, src, Len(n, w)).Some?
    requires forward || Unfed(b.pages, src, dst, Len(n, w))
    ensures CopyChunk(b, src, dst, w, n, forward) == Some(CopyEls(b, src, dst, w, n))
  {
    var len := Len(n, w);
    var s := SrcHost(b.pages, src, len).value;
    if RamHost(dst, len).Some? {
      var d := RamHost(dst, len).value;
      ForwardIsCopy(b, src, dst, w, n);
      if !forward && s < d < s + len { Feeds(b, src, dst, len); }
      if !(s < d < s + len) { MoveIsForward(b.mem, s, d, w, n); }
    } else { EachIsCopy(b, src, s, dst, w, n); }
    hide SrcHost, RamHost, Valid, CopyEls, CopyForward, PutEl, StoreEach;
  }
  lemma Feeds(b: Bus, src: nat, dst: nat, len: nat)
    requires Valid(b) && len > 0 && Linear(b, src, dst, len)
    requires SrcHost(b.pages, src, len).value < RamHost(dst, len).value < SrcHost(b.pages, src, len).value + len
    ensures !Unfed(b.pages, src, dst, len)
  {
    var off := RamHost(dst, len).value - SrcHost(b.pages, src, len).value;
    SrcSub(b, src, len, off, 1); RamSub(dst, len, 0, 1);
    hide SrcHost, RamHost;
    assert !Apart(b.pages, src + off, dst);
  }

  /** Without the forward form an overlapping chunk is wrong: memmove keeps the old source. */
  lemma MoveLosesPattern()
    ensures var mem := [1, 2, 3, 4, 5, 6];
      CopyForward(mem, 0, 2, 2, 2) == [1, 2, 1, 2, 1, 2] && PutEl(mem, 0, 2, 4) == [1, 2, 1, 2, 3, 4]
  {
    var mem: seq<Byte> := [1, 2, 3, 4, 5, 6];
    assert PutEl(mem, 0, 2, 2) == [1, 2, 1, 2, 5, 6];
    ForwardStep(mem, 0, 2, 2, 2);
    var m1: seq<Byte> := [1, 2, 1, 2, 5, 6];
    assert PutEl(m1, 2, 4, 2) == [1, 2, 1, 2, 1, 2];
    ForwardStep(m1, 2, 4, 2, 1);
    ForwardStep([1, 2, 1, 2, 1, 2], 4, 6, 2, 0);
  }

  // ---- what the environment writes ---------------------------------------------

  type Writes = map<nat, Byte>

  function Patch(mem: seq<Byte>, ws: Writes): (r: seq<Byte>)
    ensures |r| == |mem|
  { seq(|mem|, i requires 0 <= i < |mem| => if i in ws then ws[i] else mem[i]) }

  function PatchBus(b: Bus, ws: Writes): (b': Bus)
    requires Valid(b)
    ensures Valid(b') && b'.pages == b.pages && |b'.mem| == |b.mem|
  { b.(mem := Patch(b.mem, ws)) }

  predicate Untouched(pages: map<nat, nat>, ws: Writes, a: nat) {
    SrcHost(pages, a, 1).Some? ==> SrcHost(pages, a, 1).value !in ws
  }
  ghost predicate Clear(pages: map<nat, nat>, ws: Writes, addr: nat, len: nat) {
    forall a :: addr <= a < addr + len ==> Untouched(pages, ws, a)
  }

  lemma PatchSlice(mem: seq<Byte>, ws: Writes, h: nat, w: nat)
    requires h + w <= |mem| && forall a :: h <= a < h + w ==> a !in ws
    ensures Patch(mem, ws)[h..h + w] == mem[h..h + w]
  {}
  lemma PatchPut(mem: seq<Byte>, ws: Writes, h: nat, bs: seq<Byte>)
    requires h + |bs| <= |mem| && forall a :: h <= a < h + |bs| ==> a !in ws
    ensures Put(Patch(mem, ws), h, bs) == Patch(Put(mem, h, bs), ws)
  {}
  lemma HostClear(b: Bus, ws: Writes, addr: nat, w: nat)
    requires Valid(b) && w > 0 && SrcHost(b.pages, addr, w).Some? && Clear(b.pages, ws, addr, w)
    ensures var h := SrcHost(b.pages, addr, w).value;
      h + w <= |b.mem| && forall a :: h <= a < h + w ==> a !in ws
  {
    var h := SrcHost(b.pages, addr, w).value;
    SrcSub(b, addr, w, 0, w);
    forall a | h <= a < h + w ensures a !in ws {
      SrcSub(b, addr, w, a - h, 1);
      assert Untouched(b.pages, ws, addr + (a - h));
    }
  }
  lemma RamIsSource(pages: map<nat, nat>, addr: nat, len: nat)
    requires RamHost(addr, len).Some?
    ensures SrcHost(pages, addr, len) == RamHost(addr, len)
  {}

  lemma LoadPatch(b: Bus, ws: Writes, addr: nat, w: nat)
    requires Valid(b) && w > 0 && Clear(b.pages, ws, addr, w)
    ensures Load(PatchBus(b, ws), addr, w) == Load(b, addr, w)
  {
    if SrcHost(b.pages, addr, w).Some? {
      HostClear(b, ws, addr, w);
      PatchSlice(b.mem, ws, SrcHost(b.pages, addr, w).value, w);
    }
    hide SrcHost, Patch, Clear;
  }
  lemma StorePatch(b: Bus, ws: Writes, addr: nat, bs: seq<Byte>)
    requires Valid(b) && bs != [] && Clear(b.pages, ws, addr, |bs|)
    ensures Store(PatchBus(b, ws), addr, bs) == PatchBus(Store(b, addr, bs), ws)
  {
    if RamHost(addr, |bs|).Some? {
      RamIsSource(b.pages, addr, |bs|);
      HostClear(b, ws, addr, |bs|);
      PatchPut(b.mem, ws, RamHost(addr, |bs|).value, bs);
    }
    hide RamHost, SrcHost, Patch, Clear, Put;
  }

  /** The copy loop commutes with writes outside its two ranges. */
  lemma {:induction false} CopyPatch(b: Bus, ws: Writes, src: nat, dst: nat, w: Width, n: nat)
    requires Valid(b) && Clear(b.pages, ws, src, Len(n, w)) && Clear(b.pages, ws, dst, Len(n, w))
    ensures CopyEls(PatchBus(b, ws), src, dst, w, n) == PatchBus(CopyEls(b, src, dst, w, n), ws)
    decreases n
  {
    hide Valid, PatchBus, Load, Store, Clear;
    ClearHead(b.pages, ws, src, Len(n, w), w); ClearHead(b.pages, ws, dst, Len(n, w), w);
    if n > 0 {
      LoadPatch(b, ws, src, w);
      StorePatch(b, ws, dst, Load(b, src, w));
      CopyPatch(CopyEl(b, src, dst, w), ws, src + w, dst + w, w, n - 1);
    }
  }
  lemma ClearHead(pages: map<nat, nat>, ws: Writes, addr: nat, len: nat, w: nat)
    requires Clear(pages, ws, addr, len)
    ensures len >= w ==> Clear(pages, ws, addr, w) && Clear(pages, ws, addr + w, len - w)
  { hide Untouched; }
  lemma {:induction false} FillPatch(b: Bus, ws: Writes, dst: nat, v: seq<Byte>, n: nat)
    requires Valid(b) && |v| == 4 && Clear(b.pages, ws, dst, 4 * n)
    ensures FillEls(PatchBus(b, ws), dst, v, n) == PatchBus(FillEls(b, dst, v, n), ws)
    decreases n
  {
    if n > 0 {
      StorePatch(b, ws, dst, v);
      FillPatch(Store(b, dst, v), ws, dst + 4, v, n - 1);
    }
    hide Valid, PatchBus, Store, Untouched;
  }

  // ---- the last element loaded --------------------------------------------------

  predicate Aligned(x: nat, w: Width) { if w == 2 then x % 2 == 0 else x % 4 == 0 }

  /** Storing an aligned element leaves the one just loaded as it was. */
  lemma SelfLoad(b: Bus, src: nat, dst: nat, w: Width)
    requires Valid(b) && Aligned(src, w) && Aligned(dst, w)
    ensures Load(CopyEl(b, src, dst, w), src, w) == Load(b, src, w)
  {
    if SrcHost(b.pages, src, w).Some? && RamHost(dst, w).Some? {
      var s, d := SrcHost(b.pages, src, w).value, RamHost(dst, w).value;
      StepEl(b, src, dst, w);
      HostAligned(b, src, w, w); RamAligned(dst, w, w);
      PutElSlice(b.mem, s, d, w);
    }
    hide SrcHost, RamHost, PutEl;
  }
  lemma PutElSlice(mem: seq<Byte>, s: nat, d: nat, w: Width)
    requires s + w <= |mem| && d + w <= |mem| && Aligned(s, w) && Aligned(d, w)
    ensures PutEl(mem, s, d, w)[s..s + w] == mem[s..s + w]
  {
    AlignedGap(s, d, w);
    assert s == d || s + w <= d || d + w <= s;
  }
  lemma AlignedGap(s: nat, d: nat, w: Width)
    requires Aligned(s, w) && Aligned(d, w)
    ensures s == d || s + w <= d || d + w <= s
  { if w == 2 { Gap2(s, d); } else { Gap4(s, d); } }
  lemma Gap2(s: nat, d: nat) requires s % 2 == 0 && d % 2 == 0 ensures s == d || s + 2 <= d || d + 2 <= s {}
  lemma Gap4(s: nat, d: nat) requires s % 4 == 0 && d % 4 == 0 ensures s == d || s + 4 <= d || d + 4 <= s {}

  lemma RamAligned(addr: nat, len: nat, w: Width)
    requires RamHost(addr, len).Some? && Aligned(addr, w)
    ensures Aligned(RamHost(addr, len).value, w)
  {
    ModAligned(addr, 0x4_0000, w); ModAligned(addr, 0x8000, w); ModAligned(addr, 0x2_0000, w);
    SumAligned(0x4_0000, addr % 0x8000, w); SumAligned(0x4_8000, addr % 0x2_0000, w);
    hide Aligned;
  }
  lemma SumAligned(x: nat, y: nat, w: Width)
    requires x % 4 == 0 && Aligned(y, w)
    ensures Aligned(x + y, w)
  { if w == 2 { Sum2(x, y); } else { Sum4(x, y); } }
  lemma Sum2(x: nat, y: nat)
    requires x % 4 == 0 && y % 2 == 0
    ensures (x + y) % 2 == 0
  { ModUnique(x + y, 2, 2 * (x / 4) + y / 2, 0); }
  lemma Sum4(x: nat, y: nat)
    requires x % 4 == 0 && y % 4 == 0
    ensures (x + y) % 4 == 0
  { ModUnique(x + y, 4, x / 4 + y / 4, 0); }
  lemma ModAligned(x: nat, m: nat, w: Width)
    requires m in {0x4_0000, 0x8000, 0x2_0000} && Aligned(x, w)
    ensures Aligned(x % m, w)
  { Multiples(x); }
  lemma Multiples(addr: nat)
    ensures addr % 0x4_0000 % 4 == addr % 4 && addr % 0x8000 % 4 == addr % 4 && addr % 0x2_0000 % 4 == addr % 4
    ensures addr % 0x4_0000 % 2 == addr % 2 && addr % 0x8000 % 2 == addr % 2 && addr % 0x2_0000 % 2 == addr % 2
  { Multiple(addr, 0x4_0000); Multiple(addr, 0x8000); Multiple(addr, 0x2_0000); }
  lemma Multiple(addr: nat, m: nat)
    requires m in {0x4_0000, 0x8000, 0x2_0000}
    ensures addr % m % 4 == addr % 4 && addr % m % 2 == addr % 2
  {
    var q: int, r: int := addr / m, addr % m;
    var k: int := m / 4;
    assert q * m == 4 * (k * q);
    ModUnique(addr, 4, k * q + r / 4, r % 4);
    ModUnique(addr, 2, 2 * (k * q) + r / 2, r % 2);
  }
  lemma HostAligned(b: Bus, addr: nat, len: nat, w: Width)
    requires Valid(b) && SrcHost(b.pages, addr, len).Some? && Aligned(addr, w)
    ensures Aligned(SrcHost(b.pages, addr, len).value, w)
  {
    if 8 <= addr / 0x100_0000 <= 0xD {
      ModAligned(addr, 0x8000, w);
      SumAligned(b.pages[(addr % 0x1000_0000) / 0x8000], addr % 0x8000, w);
    } else { RamAligned(addr, len, w); }
    hide Aligned;
  }

  // ---- words and stack frames -----------------------------------------------------

  function Le(x: Word): (bs: seq<Byte>)
    ensures |bs| == 4
  { [x % 0x100, (x / 0x100) % 0x100, (x / 0x1_0000) % 0x100, x / 0x100_0000] }
  function FromLe(bs: seq<Byte>): Word
    requires |bs| == 4
  {
    var x: int, y: int, z: int := bs[1], bs[2], bs[3];
    bs[0] + 0x100 * x + 0x1_0000 * y + 0x100_0000 * z
  }
  lemma LeParts(x: int, y: int, z: int, u: int)
    requires 0 <= x < 256 && 0 <= y < 256 && 0 <= z < 256 && 0 <= u < 256
    ensures var v := x + 0x100 * y + 0x1_0000 * z + 0x100_0000 * u;
      v % 0x100 == x && (v / 0x100) % 0x100 == y && (v / 0x1_0000) % 0x100 == z && v / 0x100_0000 == u
  {
    var v := x + 0x100 * y + 0x1_0000 * z + 0x100_0000 * u;
    ModUnique(v, 0x100, y + 0x100 * z + 0x1_0000 * u, x);
    ModUnique(v / 0x100, 0x100, z + 0x100 * u, y);
    ModUnique(v, 0x1_0000, z + 0x100 * u, x + 0x100 * y);
    ModUnique(z + 0x100 * u, 0x100, u, z);
    ModUnique(v, 0x100_0000, u, x + 0x100 * y + 0x1_0000 * z);
  }
  lemma LeRound(x: Word) ensures FromLe(Le(x)) == x { LeDigits(x, x / 0x100, x / 0x1_0000); }
  lemma LeDigits(x: Word, x1: int, x2: int)
    requires x1 == x / 0x100 && x2 == x / 0x1_0000
    ensures x == x % 0x100 + 0x100 * (x1 % 0x100) + 0x1_0000 * (x2 % 0x100) + 0x100_0000 * (x / 0x100_0000)
  {
    DivDiv(x, 0x100, 0x100); DivDiv(x, 0x1_0000, 0x100);
    assert x == 0x100 * x1 + x % 0x100 && x1 == 0x100 * x2 + x1 % 0x100 && x2 == 0x100 * (x / 0x100_0000) + x2 % 0x100;
  }

  /** Four words pushed one by one below sp, the last argument first. */
  function Push4(b: Bus, sp: nat, w0: Word, w1: Word, w2: Word, w3: Word): (b': Bus)
    requires Valid(b) && sp >= 16
    ensures Valid(b') && b'.pages == b.pages && |b'.mem| == |b.mem|
  { Store(Store(Store(Store(b, sp - 4, Le(w3)), sp - 8, Le(w2)), sp - 12, Le(w1)), sp - 16, Le(w0)) }

  predicate InFrame(h: nat, a: nat) { h <= a < h + 16 }
  function Frame(h: nat, w0: Word, w1: Word, w2: Word, w3: Word): (f: Writes)
    ensures forall a :: a in f <==> h <= a < h + 16
  {
    var bs := Le(w0) + Le(w1) + Le(w2) + Le(w3);
    map a | h <= a < h + 16 && InFrame(h, a) :: bs[a - h]
  }

  lemma PushIsPatch(b: Bus, sp: nat, w0: Word, w1: Word, w2: Word, w3: Word)
    requires Valid(b) && sp >= 16 && RamHost(sp - 16, 16).Some?
    ensures Push4(b, sp, w0, w1, w2, w3) == PatchBus(b, Frame(RamHost(sp - 16, 16).value, w0, w1, w2, w3))
  {
    hide RamHost, Le, Put, Patch, Valid, Frame;
    var h := RamHost(sp - 16, 16).value;
    RamSub(sp - 16, 16, 0, 4); RamSub(sp - 16, 16, 4, 4); RamSub(sp - 16, 16, 8, 4); RamSub(sp - 16, 16, 12, 4);
    RamFits(b, sp - 16, 16);
    PutFour(b.mem, h, Le(w0), Le(w1), Le(w2), Le(w3));
    PutPatch(b.mem, h, w0, w1, w2, w3);
    var b3 := StoreAt(b, sp - 4, Le(w3), h + 12);
    var b2 := StoreAt(b3, sp - 8, Le(w2), h + 8);
    var b1 := StoreAt(b2, sp - 12, Le(w1), h + 4);
    var b0 := StoreAt(b1, sp - 16, Le(w0), h);
  }
  lemma StoreAt(b: Bus, addr: nat, bs: seq<Byte>, h: nat) returns (b': Bus)
    requires Valid(b) && |bs| == 4 && RamHost(addr, 4) == Some(h)
    ensures h + 4 <= |b.mem| && b' == Store(b, addr, bs) == b.(mem := Put(b.mem, h, bs))
  { RamSub(addr, 4, 0, 4); b' := Store(b, addr, bs); }
  lemma PutFour(mem: seq<Byte>, h: nat, a: seq<Byte>, b: seq<Byte>, c: seq<Byte>, d: seq<Byte>)
    requires |a| == 4 && |b| == 4 && |c| == 4 && |d| == 4 && h + 16 <= |mem|
    ensures Put(Put(Put(Put(mem, h + 12, d), h + 8, c), h + 4, b), h, a) == Put(mem, h, a + b + c + d)
  {
    PutTwo(mem, h + 8, c, d); PutTwo(mem, h + 4, b, c + d); PutTwo(mem, h, a, b + (c + d));
    assert a + (b + (c + d)) == a + b + c + d;
    hide Put;
  }
  lemma PutTwo(mem: seq<Byte>, h: nat, a: seq<Byte>, b: seq<Byte>)
    requires h + |a| + |b| <= |mem|
    ensures Put(Put(mem, h + |a|, b), h, a) == Put(mem, h, a + b)
  {}
  lemma PutPatch(mem: seq<Byte>, h: nat, w0: Word, w1: Word, w2: Word, w3: Word)
    requires h + 16 <= |mem|
    ensures Put(mem, h, Le(w0) + Le(w1) + Le(w2) + Le(w3)) == Patch(mem, Frame(h, w0, w1, w2, w3))
  { hide Le; }

  /** Reading a word of a frame no later patch touches. */
  lemma PopFrame(b: Bus, sp: nat, w0: Word, w1: Word, w2: Word, w3: Word)
    requires Valid(b) && RamHost(sp, 16).Some?
    ensures var b1 := PatchBus(b, Frame(RamHost(sp, 16).value, w0, w1, w2, w3));
      FromLe(Load(b1, sp, 4)) == w0 && FromLe(Load(b1, sp + 4, 4)) == w1
      && FromLe(Load(b1, sp + 8, 4)) == w2 && FromLe(Load(b1, sp + 12, 4)) == w3
  {
    var h := RamHost(sp, 16).value;
    RamSub(sp, 16, 0, 16);
    LeRound(w0); LeRound(w1); LeRound(w2); LeRound(w3);
    FrameWords(b.mem, h, w0, w1, w2, w3);
    PopWord(b, sp, 0, w0, w1, w2, w3); PopWord(b, sp, 4, w0, w1, w2, w3);
    PopWord(b, sp, 8, w0, w1, w2, w3); PopWord(b, sp, 12, w0, w1, w2, w3);
    hide RamHost, SrcHost, Le, FromLe, Patch, Load, Frame;
  }
  lemma PopWord(b: Bus, sp: nat, i: nat, w0: Word, w1: Word, w2: Word, w3: Word)
    requires Valid(b) && RamHost(sp, 16).Some? && i + 4 <= 16
    ensures var h := RamHost(sp, 16).value; var b1 := PatchBus(b, Frame(h, w0, w1, w2, w3));
      h + 16 <= |b.mem| && Load(b1, sp + i, 4) == b1.mem[h + i..h + i + 4]
  { RamSub(sp, 16, i, 4); RamIsSource(b.pages, sp + i, 4); hide RamHost, SrcHost, Patch; }
  lemma FrameWords(mem: seq<Byte>, h: nat, w0: Word, w1: Word, w2: Word, w3: Word)
    requires h + 16 <= |mem|
    ensures var m := Patch(mem, Frame(h, w0, w1, w2, w3));
      m[h + 0..h + 0 + 4] == Le(w0) && m[h + 4..h + 4 + 4] == Le(w1) && m[h + 8..h + 8 + 4] == Le(w2)
      && m[h + 12..h + 12 + 4] == Le(w3)
  { hide Le; }

  lemma PatchSwap(b: Bus, x: Writes, y: Writes)
    requires Valid(b) && x.Keys !! y.Keys
    ensures PatchBus(PatchBus(b, x), y) == PatchBus(PatchBus(b, y), x)
  {}
}
