/** Guest memory as the bulk paths see it: address resolution, element-wise copies as the
    BIOS loops make them, and the host-speed forms that must not be distinguishable. */
module GuestBus {
  import opened Words
  import opened Sh4

  type Byte = x: int | 0 <= x < 256

  /** `mem` holds EWRAM, IWRAM, VRAM and the mapped ROM pages; `pages` maps a 32 KiB gamepak
      page to its place in `mem`. Stores that reach no RAM array go, in order, to `dev`. */
  datatype Bus = Bus(mem: seq<Byte>, dev: seq<(nat, seq<Byte>)>, pages: map<nat, nat>)

  ghost predicate Valid(b: Bus) {
    |b.mem| >= 0x6_0000
    && forall p :: p in b.pages ==> 0x6_0000 <= b.pages[p] && b.pages[p] + 0x8000 <= |b.mem| && b.pages[p] % 4 == 0
  }

  /** cgba_bulk_ram_host. */
  function RamHost(addr: nat, len: nat): Option<nat> {
    var region := addr / 0x100_0000;
    if region == 2 then (if addr % 0x4_0000 + len > 0x4_0000 then None else Some(addr % 0x4_0000))
    else if region == 3 then (if addr % 0x8000 + len > 0x8000 then None else Some(0x4_0000 + addr % 0x8000))
    else if region == 6 then (if addr % 0x2_0000 + len > 0x1_8000 then None else Some(0x4_8000 + addr % 0x2_0000))
    else None
  }

  /** cgba_bulk_src_host. */
  function SrcHost(pages: map<nat, nat>, addr: nat, len: nat): Option<nat> {
    if 8 <= addr / 0x100_0000 <= 0xD then
      var page := (addr % 0x1000_0000) / 0x8000;
      if page !in pages || addr % 0x8000 + len > 0x8000 then None else Some(pages[page] + addr % 0x8000)
    else RamHost(addr, len)
  }

  lemma RamSub(addr: nat, len: nat, i: nat, n: nat)
    requires RamHost(addr, len).Some? && n > 0 && i + n <= len
    ensures RamHost(addr + i, n) == Some(RamHost(addr, len).value + i)
    ensures RamHost(addr, len).value + len <= 0x6_0000
  {
    Within(addr, i);
  }
  lemma Within(addr: nat, i: nat)
    ensures addr % 0x4_0000 + i < 0x4_0000 ==>
      (addr + i) / 0x100_0000 == addr / 0x100_0000 && (addr + i) % 0x4_0000 == addr % 0x4_0000 + i
    ensures addr % 0x8000 + i < 0x8000 ==>
      (addr + i) / 0x100_0000 == addr / 0x100_0000 && (addr + i) % 0x8000 == addr % 0x8000 + i
    ensures addr % 0x2_0000 + i < 0x2_0000 ==>
      (addr + i) / 0x100_0000 == addr / 0x100_0000 && (addr + i) % 0x2_0000 == addr % 0x2_0000 + i
  {
    WithinOf(addr, i, 0x4_0000, 64); WithinOf(addr, i, 0x8000, 512); WithinOf(addr, i, 0x2_0000, 128);
  }
  lemma WithinOf(addr: nat, i: nat, p: nat, c: nat)
    requires p > 0 && c > 0
    ensures addr % p + i < p ==> p * c > 0 && (addr + i) % p == addr % p + i && (addr + i) / (p * c) == addr / (p * c)
  {
    if addr % p + i < p {
      ModUnique(addr + i, p, addr / p, addr % p + i);
      DivDiv(addr + i, p, c); DivDiv(addr, p, c);
    }
  }
  lemma PageWithin(addr: nat, i: nat)
    requires addr % 0x8000 + i < 0x8000
    ensures ((addr + i) % 0x1000_0000) / 0x8000 == (addr % 0x1000_0000) / 0x8000
  {}
  lemma SrcSub(b: Bus, addr: nat, len: nat, i: nat, n: nat)
    requires Valid(b) && SrcHost(b.pages, addr, len).Some? && n > 0 && i + n <= len
    ensures SrcHost(b.pages, addr + i, n) == Some(SrcHost(b.pages, addr, len).value + i)
    ensures SrcHost(b.pages, addr, len).value + len <= |b.mem|
  {
    if 8 <= addr / 0x100_0000 <= 0xD { Within(addr, i); PageWithin(addr, i); }
    else { RamSub(addr, len, i, n); }
  }

  // ---- reads and writes ------------------------------------------------------

  function Put(mem: seq<Byte>, at: nat, bs: seq<Byte>): seq<Byte>
    requires at + |bs| <= |mem|
  { mem[..at] + bs + mem[at + |bs|..] }

  /** An element read; an address no array backs reads as zero bytes. */
  function Load(b: Bus, addr: nat, w: nat): (bs: seq<Byte>)
    requires Valid(b)
    ensures |bs| == w
  {
    if w > 0 && SrcHost(b.pages, addr, w).Some? then
      SrcSub(b, addr, w, 0, w);
      var h := SrcHost(b.pages, addr, w).value;
      b.mem[h..h + w]
    else seq(w, _ => 0)
  }

  function Store(b: Bus, addr: nat, bs: seq<Byte>): (b': Bus)
    requires Valid(b) && bs != []
    ensures Valid(b') && b'.pages == b.pages && |b'.mem| == |b.mem|
  {
    if RamHost(addr, |bs|).Some? then
      RamSub(addr, |bs|, 0, |bs|);
      b.(mem := Put(b.mem, RamHost(addr, |bs|).value, bs))
    else b.(dev := b.dev + [(addr, bs)])
  }

  type Width = w: nat | w == 2 || w == 4 witness 2

  /** Bytes in n elements. */
  function Len(n: nat, w: Width): nat { if w == 2 then 2 * n else 4 * n }

  /** The BIOS copy loop over n elements: one load and one store each, upwards. */
  function CopyEls(b: Bus, src: nat, dst: nat, w: Width, n: nat): (b': Bus)
    requires Valid(b)
    ensures Valid(b') && b'.pages == b.pages && |b'.mem| == |b.mem|
    decreases n
  {
    if n == 0 then b else CopyEls(CopyEl(b, src, dst, w), src + w, dst + w, w, n - 1)
  }
  function CopyEl(b: Bus, src: nat, dst: nat, w: Width): (b': Bus)
    requires Valid(b)
    ensures Valid(b') && b'.pages == b.pages && |b'.mem| == |b.mem|
  { Store(b, dst, Load(b, src, w)) }

  /** The BIOS fill loop. */
  function FillEls(b: Bus, dst: nat, v: seq<Byte>, n: nat): (b': Bus)
    requires Valid(b) && |v| == 4
    ensures Valid(b') && b'.pages == b.pages && |b'.mem| == |b.mem|
    decreases n
  {
    if n == 0 then b else FillEls(Store(b, dst, v), dst + 4, v, n - 1)
  }

  lemma {:induction false} CopySplit(b: Bus, src: nat, dst: nat, w: Width, n: nat, k: nat)
    requires Valid(b)
    ensures CopyEls(b, src, dst, w, n + k)
      == CopyEls(CopyEls(b, src, dst, w, n), src + Len(n, w), dst + Len(n, w), w, k)
    decreases n
  {
    hide CopyEl, Valid;
    if n > 0 { CopySplit(CopyEl(b, src, dst, w), src + w, dst + w, w, n - 1, k); }
  }
  lemma {:induction false} FillSplit(b: Bus, dst: nat, v: seq<Byte>, n: nat, k: nat)
    requires Valid(b) && |v| == 4
    ensures FillEls(b, dst, v, n + k) == FillEls(FillEls(b, dst, v, n), dst + 4 * n, v, k)
    decreases n
  {
    hide Store, Valid;
    if n > 0 { FillSplit(Store(b, dst, v), dst + 4, v, n - 1, k); }
  }

  // ---- host-speed forms ------------------------------------------------------

  function PutEl(mem: seq<Byte>, s: nat, d: nat, w: nat): (r: seq<Byte>)
    requires s + w <= |mem| && d + w <= |mem|
    ensures |r| == |mem|
  { Put(mem, d, mem[s..s + w]) }

  /** cgba_sh4_swi_copy_forward on host memory. */
  function CopyForward(mem: seq<Byte>, s: nat, d: nat, w: Width, n: nat): (r: seq<Byte>)
    requires s + Len(n, w) <= |mem| && d + Len(n, w) <= |mem|
    ensures |r| == |mem|
    decreases n
  { if n == 0 then mem else CopyForward(PutEl(mem, s, d, w), s + w, d + w, w, n - 1) }

  /** memmove is the forward loop unless the destination starts inside the source. */
  lemma {:induction false} MoveIsForward(mem: seq<Byte>, s: nat, d: nat, w: Width, n: nat)
    requires s + Len(n, w) <= |mem| && d + Len(n, w) <= |mem| && !(s < d < s + Len(n, w))
    ensures CopyForward(mem, s, d, w, n) == PutEl(mem, s, d, Len(n, w))
    decreases n
  {
    hide PutEl;
    if n > 0 {
      MoveIsForward(PutEl(mem, s, d, w), s + w, d + w, w, n - 1);
      MoveStep(mem, s, d, w, Len(n - 1, w));
    } else { PutNothing(mem, s, d); }
  }
  lemma PutNothing(mem: seq<Byte>, s: nat, d: nat)
    requires s <= |mem| && d <= |mem|
    ensures PutEl(mem, s, d, 0) == mem
  {}
  lemma MoveStep(mem: seq<Byte>, s: nat, d: nat, w: nat, len: nat)
    requires s + w + len <= |mem| && d + w + len <= |mem| && !(s < d < s + w + len)
    ensures PutEl(PutEl(mem, s, d, w), s + w, d + w, len) == PutEl(mem, s, d, w + len)
  {
    var mem1 := PutEl(mem, s, d, w);
    assert mem1[s + w..s + w + len] == mem[s + w..s + w + len];
  }

  predicate Linear(b: Bus, src: nat, dst: nat, len: nat) { SrcHost(b.pages, src, len).Some? && RamHost(dst, len).Some? }

  /** A chunk whose two ranges resolve linearly, done by the forward loop on host memory. */
  lemma {:induction false} ForwardIsCopy(b: Bus, src: nat, dst: nat, w: Width, n: nat)
    requires Valid(b) && n > 0 && Linear(b, src, dst, Len(n, w))
    ensures var s, d := SrcHost(b.pages, src, Len(n, w)).value, RamHost(dst, Len(n, w)).value;
      s + Len(n, w) <= |b.mem| && d + Len(n, w) <= |b.mem|
      && CopyEls(b, src, dst, w, n) == b.(mem := CopyForward(b.mem, s, d, w, n))
    decreases n
  {
    hide CopyEl, PutEl, SrcHost, RamHost, Valid;
    LinearSub(b, src, dst, w, n);
    StepEl(b, src, dst, w);
    if n > 1 { ForwardIsCopy(CopyEl(b, src, dst, w), src + w, dst + w, w, n - 1); }
  }
  lemma LinearSub(b: Bus, src: nat, dst: nat, w: Width, n: nat)
    requires Valid(b) && n > 0 && Linear(b, src, dst, Len(n, w))
    ensures var s, d := SrcHost(b.pages, src, Len(n, w)).value, RamHost(dst, Len(n, w)).value;
      s + Len(n, w) <= |b.mem| && d + Len(n, w) <= |b.mem|
      && SrcHost(b.pages, src, w) == Some(s) && RamHost(dst, w) == Some(d)
      && (n > 1 ==> SrcHost(b.pages, src + w, Len(n - 1, w)) == Some(s + w))
      && (n > 1 ==> RamHost(dst + w, Len(n - 1, w)) == Some(d + w))
  {
    hide SrcHost, RamHost, Valid;
    var len := Len(n, w);
    SrcSub(b, src, len, 0, w); RamSub(dst, len, 0, w);
    RamFits(b, dst, len);
    if n > 1 { SrcSub(b, src, len, w, len - w); RamSub(dst, len, w, len - w); }
  }
  lemma RamFits(b: Bus, addr: nat, len: nat)
    requires Valid(b) && len > 0 && RamHost(addr, len).Some?
    ensures RamHost(addr, len).value + len <= |b.mem|
  { RamSub(addr, len, 0, len); hide RamHost; }
  lemma StepEl(b: Bus, src: nat, dst: nat, w: Width)
    requires Valid(b) && Linear(b, src, dst, w)
    ensures var s, d := SrcHost(b.pages, src, w).value, RamHost(dst, w).value;
      s + w <= |b.mem| && d + w <= |b.mem| && CopyEl(b, src, dst, w) == b.(mem := PutEl(b.mem, s, d, w))
  { SrcSub(b, src, w, 0, w); RamSub(dst, w, 0, w); }

  // ---- overlapping forward copy ---------------------------------------------

  /** Each copied byte repeats the one a distance d - s below it; the rest is untouched. */
  lemma {:induction false} ForwardRepeats(mem: seq<Byte>, s: nat, d: nat, w: Width, n: nat, x: nat)
    requires s + Len(n, w) <= |mem| && d + Len(n, w) <= |mem| && s + w <= d && x < |mem|
    ensures var r := CopyForward(mem, s, d, w, n);
      r[x] == if d <= x < d + Len(n, w) then r[x - (d - s)] else mem[x]
    decreases n
  {
    hide CopyForward, PutEl;
    ForwardStep(mem, s, d, w, n);
    if n > 0 {
      var mem1 := PutEl(mem, s, d, w);
      PutElAt(mem, s, d, w, x);
      ForwardRepeats(mem1, s + w, d + w, w, n - 1, x);
      if d <= x < d + w {
        PutElAt(mem, s, d, w, x - (d - s));
        ForwardRepeats(mem1, s + w, d + w, w, n - 1, x - (d - s));
      }
    }
  }
  lemma ForwardStep(mem: seq<Byte>, s: nat, d: nat, w: Width, n: nat)
    requires s + Len(n, w) <= |mem| && d + Len(n, w) <= |mem|
    ensures CopyForward(mem, s, d, w, n)
      == if n == 0 then mem else CopyForward(PutEl(mem, s, d, w), s + w, d + w, w, n - 1)
  {}
  lemma PutElAt(mem: seq<Byte>, s: nat, d: nat, w: nat, x: nat)
    requires s + w <= |mem| && d + w <= |mem| && x < |mem|
    ensures PutEl(mem, s, d, w)[x] == if d <= x < d + w then mem[s + (x - d)] else mem[x]
  {}
  function Wrap(i: nat, m: nat): (r: nat)
    requires m > 0
    ensures r < m
  { i % m }
  lemma WrapStep(i: nat, m: nat)
    requires m > 0
    ensures Wrap(i, m) == if i < m then i else Wrap(i - m, m)
  { if i < m { ModUnique(i, m, 0, i); } else { ModUnique(i, m, (i - m) / m + 1, (i - m) % m); } }

  /** Pattern expansion: the copy is the periodic extension of the first d - s source bytes. */
  lemma {:induction false} ForwardPeriodic(mem: seq<Byte>, s: nat, d: nat, w: Width, n: nat, i: nat)
    requires s + Len(n, w) <= |mem| && d + Len(n, w) <= |mem| && s + w <= d && i < Len(n, w)
    ensures CopyForward(mem, s, d, w, n)[d + i] == mem[s + Wrap(i, d - s)]
    decreases i
  {
    hide CopyForward, Wrap;
    WrapStep(i, d - s);
    ForwardRepeats(mem, s, d, w, n, d + i);
    if i >= d - s { ForwardPeriodic(mem, s, d, w, n, i - (d - s)); }
    else { ForwardRepeats(mem, s, d, w, n, s + i); }
  }

  /** The last element copied is source element (n - 1) mod p when the ranges are p elements apart. */
  lemma LastElement(mem: seq<Byte>, s: nat, w: Width, n: nat, p: nat, k: nat)
    requires n > 0 && p > 0 && k < w
    requires s + Len(p, w) + Len(n, w) <= |mem|
    ensures CopyForward(mem, s, s + Len(p, w), w, n)[s + Len(p, w) + Len(n - 1, w) + k]
      == mem[s + Len(Wrap(n - 1, p), w) + k]
  {
    ForwardPeriodic(mem, s, s + Len(p, w), w, n, Len(n - 1, w) + k);
    ElementMod(n - 1, p, w, k);
    hide CopyForward;
  }
  lemma ElementMod(i: nat, p: nat, w: Width, k: nat)
    requires p > 0 && k < w
    ensures Wrap(Len(i, w) + k, Len(p, w)) == Len(Wrap(i, p), w) + k
  {
    var q: int, r: int := i / p, i % p;
    var qp: int := q * p;
    assert i == qp + r;
    Scale(q, p, w);
    ModUnique(Len(i, w) + k, Len(p, w), q, Len(r, w) + k);
  }
  lemma Scale(q: int, p: nat, w: Width)
    requires q * p >= 0
    ensures q * Len(p, w) == Len(q * p, w)
  {}

  /** cgba_sh4_swi_copy_forward: typed element loads and stores, in place. */
  method CopyForwardInPlace(mem: array<Byte>, s: nat, d: nat, w: Width, n: nat)
    requires s + Len(n, w) <= mem.Length && d + Len(n, w) <= mem.Length
    modifies mem
    ensures mem[..] == CopyForward(old(mem[..]), s, d, w, n)
  {
    hide CopyForward, PutEl;
    var i := 0;
    ForwardStep(mem[..], s, d, w, n);
    while i < n
      invariant i <= n
      invariant CopyForward(old(mem[..]), s, d, w, n) == CopyForward(mem[..], s + Len(i, w), d + Len(i, w), w, n - i)
    {
      ghost var was := mem[..];
      var x, y := s + Len(i, w), d + Len(i, w);
      ForwardStep(mem[..], x, y, w, n - i);
      MoveEl(mem, x, y, w);
      i := i + 1;
    }
    ForwardStep(mem[..], s + Len(i, w), d + Len(i, w), w, 0);
  }
  method MoveEl(mem: array<Byte>, x: nat, y: nat, w: Width)
    requires x + w <= mem.Length && y + w <= mem.Length
    modifies mem
    ensures mem[..] == PutEl(old(mem[..]), x, y, w)
  {
    if w == 2 {
      mem[y], mem[y + 1] := mem[x], mem[x + 1];
    } else {
      mem[y], mem[y + 1], mem[y + 2], mem[y + 3] := mem[x], mem[x + 1], mem[x + 2], mem[x + 3];
    }
  }
}
